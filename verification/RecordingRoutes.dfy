/**
 Which way the frames of the recording protocol go: what becomes of a batch at each of its steps,
 whatever other threads do in between, and whole trips from the service and back to it.
 */
module RecordingRoutes {
  import opened Arithmetic
  import opened RecordingFrames
  import opened Wrappers

  // ----- One step -----

  /** The step of task `i` leaves the other tasks in place, adds `ts`, and changes nothing else but
      the books. */
  predicate Adds(s: State, r: State, i: nat, ts: seq<Task>)
    requires i < |s.tasks|
  {
    && r.tasks == s.tasks[..i] + s.tasks[i + 1..] + ts
    && r.connected == s.connected && r.listener == s.listener && r.proxy == s.proxy && r.sent == s.sent
  }

  /** Nobody else knows about the batch: not released, not returned, not lost. */
  predicate SameBooks(s: State, r: State) {
    r.ledger == s.ledger && r.returned == s.returned && r.leaked == s.leaked && r.lost == s.lost
  }

  /** Exactly one transaction with these frames, in order; the sender's copies are left to be
      closed, and no other task is about the batch. */
  predicate OneTransaction(ts: seq<Task>, stage: Stage, times: seq<int>, site: Site, hs: seq<Handle>) {
    && |ts| == 2
    && ts[0].stage == stage && ts[0].times == times && ts[0].hs == []
    && |ts[0].frames| == |hs| && (forall k :: 0 <= k < |hs| ==> ts[0].frames[k] == hs[k].frame)
    && ts[1].stage == Closing(site) && ts[1].hs == hs && ts[1].frames == []
  }

  /** One handle each, in order, with the listener of a process. */
  predicate EachHeld(ts: seq<Task>, site: Site, hs: seq<Handle>) {
    |ts| == |hs| && forall k :: 0 <= k < |hs| ==>
      ts[k].stage == Held(site) && ts[k].hs == [hs[k]] && ts[k].frames == [hs[k].frame]
  }

  /** The same batch, with a thread of the app, and nowhere else. */
  predicate OneThread(ts: seq<Task>, stage: Stage, times: seq<int>, hs: seq<Handle>) {
    && |ts| == 1
    && ts[0].stage == stage && ts[0].times == times && ts[0].hs == hs
    && |ts[0].frames| == |hs| && forall k :: 0 <= k < |hs| ==> ts[0].frames[k] == hs[k].frame
  }

  /** Fresh duplicates of these frames in one process. */
  predicate FreshCopies(s: State, hs: seq<Handle>, site: Site, frames: seq<Frame>) {
    |hs| == |frames| && forall k :: 0 <= k < |hs| ==>
      hs[k].site == site && hs[k].frame == frames[k] && hs[k] !in s.ledger.made
  }

  // ----- The app's callback -----

  /** What is new after a step of task `i`. */
  function New(s: State, e: Event): seq<Task>
    requires Enabled(s, e)
  {
    var n := if |s.tasks| == 0 then 0 else |s.tasks| - 1;
    if n <= |Next(s, e).tasks| then Next(s, e).tasks[n..] else []
  }

  lemma NewIs(s: State, e: Event, i: nat, ts: seq<Task>)
    requires Enabled(s, e) && i < |s.tasks| && Next(s, e).tasks == Without(s.tasks, i) + ts
    ensures New(s, e) == ts
  {
  }

  /** The first lock section hands the batch on to one thread, and nothing else happens. */
  lemma FirstSection(s: State, i: nat)
    requires Inv(s) && i < |s.tasks| && s.tasks[i].stage.Arrived?
    ensures var ts, r := New(s, Advance(i)), Next(s, Advance(i));
            |ts| == 1 && Adds(s, r, i, ts) && SameBooks(s, r) && ts[0].hs == s.tasks[i].hs
  {
    var t := s.tasks[i];
    NewIs(s, Advance(i), i, [Thread(if s.proxy then Forward else NoProxy, t.times, t.hs)]);
  }

  /** A batch whose first lock section sees a proxy listener: whatever happens before the thread goes
      on, it then makes exactly one transaction to the media server, with the times and frames in
      order.  No listener of the app gets the batch and nothing releases it. */
  lemma ProxyRoute(s: State, i: nat, later: State, k: nat)
    requires Inv(s) && i < |s.tasks| && s.tasks[i].stage.Arrived? && s.proxy
    requires k < |later.tasks| && New(s, Advance(i)) == [later.tasks[k]]
    ensures Enabled(later, Advance(k))
    ensures var r := Next(later, Advance(k));
            && Adds(later, r, k, New(later, Advance(k))) && SameBooks(later, r)
            && OneTransaction(New(later, Advance(k)), ToMedia, s.tasks[i].times, App, s.tasks[i].hs)
  {
    var t := s.tasks[i];
    assert TaskOk(t);
    NewIs(s, Advance(i), i, [Thread(Forward, t.times, t.hs)]);
    NewIs(later, Advance(k), k, PassOn(ToMedia, Thread(Forward, t.times, t.hs)));
  }

  /** Without a proxy listener: whatever happens before the second lock section, the handles go one
      by one to the listener that is set then, or, if there is none, to the release function. */
  lemma ListenerRoute(s: State, i: nat, later: State, k: nat)
    requires Inv(s) && i < |s.tasks| && s.tasks[i].stage.Arrived? && !s.proxy
    requires k < |later.tasks| && New(s, Advance(i)) == [later.tasks[k]]
    ensures Enabled(later, Advance(k))
    ensures var r := Next(later, Advance(k));
            && Adds(later, r, k, New(later, Advance(k))) && SameBooks(later, r)
            && if later.listener then EachHeld(New(later, Advance(k)), App, s.tasks[i].hs)
               else OneThread(New(later, Advance(k)), AppRelease, [], s.tasks[i].hs)
  {
    var t := s.tasks[i];
    assert TaskOk(t);
    NewIs(s, Advance(i), i, [Thread(NoProxy, t.times, t.hs)]);
    NewIs(later, Advance(k), k, if later.listener then HeldTasks(App, t.hs) else [Thread(AppRelease, [], t.hs)]);
  }

  /** A release: one transaction to the service while connected; otherwise the batch is lost. */
  lemma ReleaseRoute(s: State, i: nat)
    requires Inv(s) && i < |s.tasks| && s.tasks[i].stage.AppRelease?
    ensures var r, t := Next(s, Advance(i)), s.tasks[i];
            && Adds(s, r, i, New(s, Advance(i)))
            && if s.connected then
                 SameBooks(s, r) && OneTransaction(New(s, Advance(i)), ToService, t.times, App, t.hs)
               else
                 New(s, Advance(i)) == [] && r.ledger == s.ledger && r.returned == s.returned
                 && r.lost == s.lost + multiset(t.frames) && r.leaked == s.leaked + multiset(t.hs)
  {
    var t := s.tasks[i];
    assert TaskOk(t);
    NewIs(s, Advance(i), i, if s.connected then PassOn(ToService, t) else []);
  }

  // ----- Deliveries -----

  /** The service gets the frames of a release back. */
  lemma ReturnRoute(s: State, i: nat)
    requires i < |s.tasks| && s.tasks[i].stage.ToService?
    ensures var r, ts := Next(s, Deliver(i, None)), New(s, Deliver(i, None));
            && Adds(s, r, i, ts) && ts == [] && r.ledger == s.ledger && r.leaked == s.leaked && r.lost == s.lost
            && r.returned == s.returned + multiset(s.tasks[i].frames)
  {
    NewIs(s, Deliver(i, None), i, []);
  }

  /** Another transaction that is read without a null handle: the app's callback gets the batch, or
      the media server's listener, or the release function; each handle is a fresh copy. */
  lemma DeliveryRoute(s: State, i: nat) returns (hs: seq<Handle>)
    requires Inv(s) && i < |s.tasks| && Transaction(s.tasks[i]) && !s.tasks[i].stage.ToService?
    ensures FreshCopies(s, hs, if s.tasks[i].stage.ToMedia? then Media else App, s.tasks[i].frames)
    ensures var r, t, ts := Next(s, Deliver(i, None)), s.tasks[i], New(s, Deliver(i, None));
            && Adds(s, r, i, ts) && r.leaked == s.leaked && r.lost == s.lost && r.returned == s.returned
            && (t.stage.ToApp? ==> OneThread(ts, Arrived, t.times, hs))
            && (t.stage.ToMedia? ==> EachHeld(ts, Media, hs))
            && (t.stage.MediaRelease? ==> OneThread(ts, AppRelease, [], hs))
  {
    var t := s.tasks[i];
    assert t.frames[..|t.frames|] == t.frames;
    hs := Dup(ReaderOf(t.stage), t.frames, s.ledger.next);
    CopiesAreFresh(s, ReaderOf(t.stage), t.frames);
    NewIs(s, Deliver(i, None), i, Received(t, hs));
  }

  lemma CopiesAreFresh(s: State, site: Site, frames: seq<Frame>)
    requires Inv(s)
    ensures FreshCopies(s, Dup(site, frames, s.ledger.next), site, frames)
  {
    var hs := Dup(site, frames, s.ledger.next);
    forall k | 0 <= k < |hs| ensures hs[k] !in s.ledger.made {
      assert HandleOk(s, hs[k]);
    }
  }

  /** With a null handle the batch ends there and its frames are lost; only the release of a single
      frame goes on, as a release of no frame. */
  lemma NullRoute(s: State, i: nat, n: nat)
    requires Inv(s) && i < |s.tasks| && Transaction(s.tasks[i]) && !s.tasks[i].stage.ToService?
    requires n < |s.tasks[i].frames|
    ensures var r, t, ts := Next(s, Deliver(i, Some(n))), s.tasks[i], New(s, Deliver(i, Some(n)));
            && Adds(s, r, i, ts) && r.returned == s.returned && r.lost == s.lost + multiset(t.frames)
            && |r.leaked| == |s.leaked| + n
            && if t.stage == MediaRelease(true) then OneThread(ts, AppRelease, [], []) else ts == []
  {
    var t := s.tasks[i];
    assert TaskOk(t);
    var hs := Dup(ReaderOf(t.stage), t.frames[..n], s.ledger.next);
    NewIs(s, Deliver(i, Some(n)), i, if t.stage == MediaRelease(true) then [Thread(AppRelease, [], [])] else []);
  }

  // ----- The service, the listeners and the settings -----

  /** A batch leaves the service with the next numbers if there is a time for each frame; otherwise
      nothing happens. */
  lemma SendRoute(s: State, times: seq<int>, n: nat)
    ensures var r := Next(s, Send(times, n));
            if |times| != n then r == s
            else
              && |r.tasks| == |s.tasks| + 1 && r.tasks[..|s.tasks|] == s.tasks
              && r == s.(tasks := r.tasks, sent := s.sent + n)
              && var t := r.tasks[|s.tasks|];
                 && t.stage == ToApp && t.times == times && t.hs == [] && |t.frames| == n
                 && forall k :: 0 <= k < n ==> t.frames[k] == s.sent + k
  {
  }

  /** Handles that a listener picks leave what it holds; in the app they go to the release function,
      in the media server into one transaction to the app, single or as a batch. */
  lemma PickRoute(s: State, site: Site, picks: seq<nat>, single: bool)
    requires Enabled(s, Release(site, picks, single))
    ensures var r, hs, n := Next(s, Release(site, picks, single)), PickedHandles(s.tasks, site, picks),
                            |PickedRest(s.tasks, site, picks)|;
            && r == s.(tasks := r.tasks) && n <= |r.tasks| && r.tasks[..n] == PickedRest(s.tasks, site, picks)
            && if site.App? then OneThread(r.tasks[n..], AppRelease, [], hs)
               else OneTransaction(r.tasks[n..], MediaRelease(single), [], Media, hs)
  {
  }

  lemma SettingsRoute(s: State, on: bool)
    ensures Next(s, SetListener(on)) == s.(listener := on)
    ensures Next(s, SetProxy(on)) == s.(proxy := on)
    ensures Next(s, SetConnected(on)) == s.(connected := on)
  {
  }

  // ----- Trips -----

  predicate Steps(s: State, e: Event, r: State) {
    Enabled(s, e) && r == Next(s, e)
  }

  /** A listener of the media server holds a frame, by a handle of that process. */
  predicate InMedia(t: Task, f: Frame) {
    t.stage == Held(Media) && t.frames == [f] && |t.hs| == 1 && t.hs[0].site == Media && t.hs[0].frame == f
  }

  predicate AllInMedia(ts: seq<Task>, frames: seq<Frame>) {
    |ts| == |frames| && forall k :: 0 <= k < |ts| ==> InMedia(ts[k], frames[k])
  }

  /** A batch that the service sends while a proxy listener is set, and that is not held up, reaches
      the media server: its listener holds one handle of its own for every frame, in order. */
  lemma TripToMedia(s: State, times: seq<int>)
    returns (s1: State, s2: State, s3: State, s4: State, s5: State, r: State)
    ensures var m := |s.tasks|;
            && Steps(s, SetProxy(true), s1) && Steps(s1, Send(times, |times|), s2)
            && Steps(s2, Deliver(m, None), s3) && Steps(s3, Advance(m), s4)
            && Steps(s4, Advance(m), s5) && Steps(s5, Deliver(m, None), r)
    ensures var m := |s.tasks|;
            && |r.tasks| == m + 1 + |times| && r.tasks[..m] == s.tasks && r.tasks[m].stage == Closing(App)
            && r.returned == s.returned && r.lost == s.lost && r.leaked == s.leaked
            && AllInMedia(r.tasks[m + 1..], Numbers(s.sent, |times|))
  {
    var m := |s.tasks|;
    s1 := Next(s, SetProxy(true));
    s2 := Next(s1, Send(times, |times|));
    s3, s4 := ToTheProxy(s2, m);
    s5, r := ToTheMediaServer(s4, m);
  }

  /** The transaction is read and the first lock section sees the proxy listener. */
  lemma ToTheProxy(s: State, m: nat) returns (s1: State, s2: State)
    requires m + 1 == |s.tasks| && s.tasks[m].stage == ToApp && s.tasks[m].hs == [] && s.proxy
    requires |s.tasks[m].times| == |s.tasks[m].frames|
    ensures Enabled(s, Deliver(m, None)) && s1 == Next(s, Deliver(m, None))
    ensures Enabled(s1, Advance(m)) && s2 == Next(s1, Advance(m)) && s2 == s.(tasks := s2.tasks, ledger := s2.ledger)
    ensures |s2.tasks| == m + 1 && s2.tasks[..m] == s.tasks[..m] && s2.tasks[m].stage == Forward
    ensures s2.tasks[m].times == s.tasks[m].times && s2.tasks[m].frames == s.tasks[m].frames
    ensures s2.tasks[m].frames == FramesOf(s2.tasks[m].hs)
  {
    var t := s.tasks[m];
    assert t.frames[..|t.frames|] == t.frames;
    s1 := Next(s, Deliver(m, None));
    var hs := Dup(App, t.frames, s.ledger.next);
    assert s1.tasks == s.tasks[..m] + [Thread(Arrived, t.times, hs)];
    s2 := Next(s1, Advance(m));
    assert s2.tasks == s.tasks[..m] + [Thread(Forward, t.times, hs)];
    assert FramesOf(hs) == t.frames;
  }

  /** The thread forwards the batch, and the transaction is read in the media server. */
  lemma ToTheMediaServer(s: State, m: nat) returns (s1: State, s2: State)
    requires m + 1 == |s.tasks| && s.tasks[m].stage == Forward && s.tasks[m].frames == FramesOf(s.tasks[m].hs)
    requires |s.tasks[m].times| == |s.tasks[m].hs|
    ensures Enabled(s, Advance(m)) && s1 == Next(s, Advance(m))
    ensures Enabled(s1, Deliver(m, None)) && s2 == Next(s1, Deliver(m, None))
    ensures s2 == s.(tasks := s2.tasks, ledger := s2.ledger)
    ensures |s2.tasks| == m + 1 + |s.tasks[m].frames| && s2.tasks[..m] == s.tasks[..m]
    ensures s2.tasks[m].stage == Closing(App) && AllInMedia(s2.tasks[m + 1..], s.tasks[m].frames)
  {
    var t, front := s.tasks[m], s.tasks[..m];
    s1 := Next(s, Advance(m));
    var parcel, close := Parcel(ToMedia, t.times, t.frames), CloseTask(App, t.hs);
    assert s1.tasks == front + [parcel, close];
    WithoutMiddle(front, parcel, close);
    s2 := ReadByMedia(s1, m, t.frames);
    assert s2.tasks[..m] == s2.tasks[..m + 1][..m] == front;
  }

  lemma ReadByMedia(s: State, m: nat, frames: seq<Frame>) returns (r: State)
    requires m < |s.tasks| && s.tasks[m].stage == ToMedia && s.tasks[m].frames == frames
    ensures Steps(s, Deliver(m, None), r) && r == s.(tasks := r.tasks, ledger := r.ledger)
    ensures var n := |s.tasks| - 1;
            |r.tasks| == n + |frames| && r.tasks[..n] == Without(s.tasks, m) && AllInMedia(r.tasks[n..], frames)
  {
    assert frames[..|frames|] == frames;
    r := Next(s, Deliver(m, None));
    assert r.tasks == Without(s.tasks, m) + HeldTasks(Media, Dup(Media, frames, s.ledger.next));
    assert r.tasks[|s.tasks| - 1..] == HeldTasks(Media, Dup(Media, frames, s.ledger.next));
  }

  /** The frame of task `i` was returned, nothing was lost, and only copies are left to be closed. */
  predicate CameBack(s: State, i: nat, r: State)
    requires i < |s.tasks| && |s.tasks[i].hs| == 1
  {
    var front := Without(s.tasks, i) + [CloseTask(Media, s.tasks[i].hs)];
    && |r.tasks| == |front| + 1 && r.tasks[..|front|] == front && r.tasks[|front|].stage == Closing(App)
    && r.returned == s.returned + multiset{s.tasks[i].hs[0].frame} && r.lost == s.lost && r.leaked == s.leaked
  }

  /** A frame that a listener of the media server releases while the camera is connected, and that is
      not held up, comes back to the service. */
  lemma TripBack(s: State, i: nat, picks: seq<nat>)
    returns (s1: State, s2: State, s3: State, s4: State, r: State)
    requires i < |s.tasks| && s.tasks[i].stage == Held(Media) && |s.tasks[i].hs| == 1 && picks == [i]
    ensures var m := |s.tasks| - 1;
            && Steps(s, SetConnected(true), s1) && Steps(s1, Release(Media, picks, true), s2)
            && Steps(s2, Deliver(m, None), s3) && Steps(s3, Advance(m + 1), s4) && Steps(s4, Deliver(m + 1, None), r)
    ensures CameBack(s, i, r)
  {
    var m, front := |s.tasks| - 1, Without(s.tasks, i) + [CloseTask(Media, s.tasks[i].hs)];
    s1 := Next(s, SetConnected(true));
    s2 := ReleasedOne(s1, i, picks);
    s3, s4, r := FromTheApp(s2, m, s.tasks[i].hs[0].frame, front);
    IsBack(s, i, s2, r, front);
  }

  lemma IsBack(s: State, i: nat, s2: State, r: State, front: seq<Task>)
    requires i < |s.tasks| && |s.tasks[i].hs| == 1 && front == Without(s.tasks, i) + [CloseTask(Media, s.tasks[i].hs)]
    requires s2.returned == s.returned && s2.lost == s.lost && s2.leaked == s.leaked
    requires r == s2.(tasks := r.tasks, returned := s2.returned + multiset{s.tasks[i].hs[0].frame}, ledger := r.ledger)
    requires |r.tasks| == |front| + 1 && r.tasks[..|front|] == front && r.tasks[|front|].stage == Closing(App)
    ensures CameBack(s, i, r)
  {
  }

  lemma FromTheApp(s: State, m: nat, f: Frame, front: seq<Task>) returns (s1: State, s2: State, r: State)
    requires m < |s.tasks| && s.tasks[m] == Parcel(MediaRelease(true), [], [f]) && Without(s.tasks, m) == front
    requires |front| == m + 1 && s.connected
    ensures Steps(s, Deliver(m, None), s1) && Steps(s1, Advance(m + 1), s2) && Steps(s2, Deliver(m + 1, None), r)
    ensures r == s.(tasks := r.tasks, returned := s.returned + multiset{f}, ledger := r.ledger)
    ensures |r.tasks| == m + 2 && r.tasks[..m + 1] == front && r.tasks[m + 1].stage == Closing(App)
  {
    s1 := ToTheApp(s, m, f, front);
    s2, r := ToTheService(s1, m + 1, f, front);
  }

  lemma WithoutMiddle(a: seq<Task>, t: Task, u: Task)
    ensures Without(a + [t, u], |a|) == a + [u]
  {
  }

  lemma ToTheApp(s: State, m: nat, f: Frame, front: seq<Task>) returns (r: State)
    requires m < |s.tasks| && s.tasks[m] == Parcel(MediaRelease(true), [], [f]) && Without(s.tasks, m) == front
    ensures Steps(s, Deliver(m, None), r) && r == s.(tasks := r.tasks, ledger := r.ledger)
    ensures |r.tasks| == |front| + 1 && r.tasks[..|front|] == front
    ensures var t := r.tasks[|front|];
            t.stage == AppRelease && t.times == [] && t.frames == [f] && |t.hs| == 1 && FramesOf(t.hs) == [f]
  {
    assert [f][..1] == [f];
    r := Next(s, Deliver(m, None));
    var copies := Dup(App, [f], s.ledger.next);
    assert FramesOf(copies) == [f];
    assert r.tasks == front + [Thread(AppRelease, [], copies)];
  }

  lemma ToTheService(s: State, m: nat, f: Frame, front: seq<Task>) returns (s1: State, r: State)
    requires s.connected && m == |front| && |s.tasks| == m + 1 && s.tasks[..m] == front
    requires var t := s.tasks[m];
             t.stage == AppRelease && t.times == [] && |t.hs| == 1 && FramesOf(t.hs) == [f]
    ensures Steps(s, Advance(m), s1) && Steps(s1, Deliver(m, None), r)
    ensures r == s.(tasks := r.tasks, returned := s.returned + multiset{f})
    ensures |r.tasks| == m + 1 && r.tasks[..m] == front && r.tasks[m].stage == Closing(App)
  {
    var hs := s.tasks[m].hs;
    s1 := Next(s, Advance(m));
    assert s1.tasks == front + [Parcel(ToService, [], [f]), CloseTask(App, hs)];
    r := Next(s1, Deliver(m, None));
    assert r.tasks == front + [CloseTask(App, hs)];
  }

  lemma ReleasedOne(s: State, i: nat, picks: seq<nat>) returns (r: State)
    requires i < |s.tasks| && s.tasks[i].stage == Held(Media) && |s.tasks[i].hs| == 1 && picks == [i]
    ensures Steps(s, Release(Media, picks, true), r)
    ensures r == s.(tasks := r.tasks)
    ensures var m, h := |s.tasks| - 1, s.tasks[i].hs[0];
            && |r.tasks| == m + 2 && r.tasks[m] == Parcel(MediaRelease(true), [], [h.frame])
            && Without(r.tasks, m) == Without(s.tasks, i) + [CloseTask(Media, s.tasks[i].hs)]
  {
    var h := s.tasks[i].hs[0];
    var rest := Without(s.tasks, i);
    assert picks[1..] == [] && CanPick(rest, Media, []) && CanPick(s.tasks, Media, picks);
    assert PickedRest(s.tasks, Media, picks) == rest;
    assert PickedHandles(s.tasks, Media, picks) == [h] + [] == [h];
    assert FramesOf([h]) == [h.frame];
    r := Next(s, Release(Media, picks, true));
    assert s.tasks[i].hs == [h];
    WithoutMiddle(rest, Parcel(MediaRelease(true), [], [h.frame]), CloseTask(Media, [h]));
    assert r.tasks == rest + [Parcel(MediaRelease(true), [], [h.frame]), CloseTask(Media, [h])];
  }
}
