/**
 The recording-frame handle protocol between the camera service, the application that
 owns the Camera object, and the media server.

 Every hop duplicates the native handle of a frame, so every process ends up with copies
 of its own that it has to close.  The state below holds the threads that are part-way
 through one of the functions of camera/Camera.cpp or of the four binder files, together
 with the transactions in flight; `Next` performs one atomic step of one of them.
 */
module RecordingFrames {
  import opened Arithmetic
  import opened Wrappers

  /** Number of a frame, in the order in which the service handed them out. */
  type Frame = nat

  datatype Site = App | Media

  /** One duplicate of a frame's native handle, living in one process. */
  datatype Handle = Handle(site: Site, id: nat, frame: Frame)

  /** Where a batch of frames is. */
  datatype Stage =
    | ToApp            // transaction from the service, one-way
    | Arrived          // Camera's callback, before it looks at the proxy listener
    | NoProxy          // Camera's callback, before it looks at the ordinary listener
    | Forward          // Camera's callback, with a proxy listener in hand
    | ToMedia          // transaction from the app to the media server, one-way
    | Held(site: Site) // kept by a listener
    | MediaRelease(single: bool) // release transaction from the media server to the app, of one
                                 // frame or of a batch
    | AppRelease       // Camera's release function
    | ToService        // release transaction from the app to the service
    | Closing(site: Site) // after transact, before the sender's copies are closed

  /** A transaction in flight, a thread between two accesses to shared state, or a handle
      kept by a listener: `hs` are the open handles it is responsible for, `frames` the
      frames it still has to bring back to the service. */
  datatype Task = Task(stage: Stage, times: seq<int>, hs: seq<Handle>, frames: seq<Frame>)

  /** Every handle of every process. */
  datatype Ledger = Ledger(
    next: nat,                   // number of handles duplicated so far
    made: set<Handle>,           // every handle ever duplicated
    open: set<Handle>,           // handles not closed yet
    closed: multiset<Handle>,    // every native_handle_close so far
    fault: bool)                 // a process closed a handle that was not an open one of its own

  datatype State = State(
    connected: bool,             // mCamera is set
    listener: bool,              // mListener is set
    proxy: bool,                 // mRecordingProxyListener is set
    tasks: seq<Task>,
    ledger: Ledger,
    sent: nat,                   // frames handed out by the service
    returned: multiset<Frame>,   // frames named in release transactions the service received
    leaked: multiset<Handle>,    // open handles no thread, transaction or listener knows about
    lost: multiset<Frame>)       // frames no release transaction will ever name

  datatype Event =
    | Send(times: seq<int>, n: nat)
    | Deliver(i: nat, fail: Option<nat>)
    | Advance(i: nat)
    | Release(site: Site, picks: seq<nat>, single: bool)
    | SetListener(present: bool)
    | SetProxy(present: bool)
    | SetConnected(on: bool)

  const INITIAL := State(false, false, false, [], Ledger(0, {}, {}, multiset{}, false), 0,
                         multiset{}, multiset{}, multiset{})

  // ----- Tasks -----

  function FramesOf(hs: seq<Handle>): (fs: seq<Frame>)
    ensures |fs| == |hs|
  {
    seq(|hs|, k requires 0 <= k < |hs| => hs[k].frame)
  }

  function Parcel(stage: Stage, times: seq<int>, frames: seq<Frame>): Task {
    Task(stage, times, [], frames)
  }

  function Thread(stage: Stage, times: seq<int>, hs: seq<Handle>): Task {
    Task(stage, times, hs, FramesOf(hs))
  }

  function CloseTask(site: Site, hs: seq<Handle>): Task {
    Task(Closing(site), [], hs, [])
  }

  /** A listener receives a batch handle by handle. */
  function HeldTasks(site: Site, hs: seq<Handle>): (ts: seq<Task>)
    ensures |ts| == |hs|
  {
    seq(|hs|, k requires 0 <= k < |hs| => Thread(Held(site), [], [hs[k]]))
  }

  predicate Transaction(t: Task) {
    t.stage.ToApp? || t.stage.ToMedia? || t.stage.MediaRelease? || t.stage.ToService?
  }

  predicate Running(t: Task) {
    t.stage.Arrived? || t.stage.NoProxy? || t.stage.Forward? || t.stage.AppRelease? || t.stage.Closing?
  }

  // ----- Steps -----

  function Without(ts: seq<Task>, i: nat): (r: seq<Task>)
    requires i < |ts|
    ensures |r| == |ts| - 1
  {
    ts[..i] + ts[i + 1..]
  }

  function Replace(s: State, i: nat, ts: seq<Task>): State
    requires i < |s.tasks|
  {
    s.(tasks := Without(s.tasks, i) + ts)
  }

  /** The handles readNativeHandle yields for a run of frames. */
  function Dup(site: Site, frames: seq<Frame>, id: nat): (hs: seq<Handle>)
    ensures |hs| == |frames|
  {
    seq(|frames|, k requires 0 <= k < |frames| => Handle(site, id + k, frames[k]))
  }

  function Elements(hs: seq<Handle>): set<Handle> {
    set h | h in hs
  }

  /** How many handles onTransact reads before the first null one. */
  function ReadCount(frames: seq<Frame>, fail: Option<nat>): (n: nat)
    ensures n <= |frames|
  {
    if fail.Some? && fail.value < |frames| then fail.value else |frames|
  }

  /** The effect of reading `hs` out of a parcel. */
  function Opened(l: Ledger, hs: seq<Handle>): Ledger {
    l.(next := l.next + |hs|, made := l.made + Elements(hs), open := l.open + Elements(hs))
  }

  function CloseOne(l: Ledger, site: Site, h: Handle): Ledger {
    l.(open := l.open - {h}, closed := l.closed + multiset{h},
       fault := l.fault || h !in l.open || h.site != site)
  }

  /** The effect of closing `hs` one after the other in process `site`. */
  function CloseAll(l: Ledger, site: Site, hs: seq<Handle>): Ledger
    decreases |hs|
  {
    if hs == [] then l else CloseAll(CloseOne(l, site, hs[0]), site, hs[1..])
  }

  function Reading(s: State, hs: seq<Handle>): State {
    s.(ledger := Opened(s.ledger, hs))
  }

  /** A batch is dropped on the floor: nothing closes its handles or returns its frames. */
  function Abandon(s: State, i: nat, hs: seq<Handle>, frames: seq<Frame>): State
    requires i < |s.tasks|
  {
    Replace(s, i, []).(leaked := s.leaked + multiset(hs), lost := s.lost + multiset(frames))
  }

  /** The release of a single frame is passed on with a null handle: a release of no frame. */
  function PassNull(s: State, i: nat): State
    requires i < |s.tasks|
  {
    Replace(s, i, [Thread(AppRelease, [], [])]).(lost := s.lost + multiset(s.tasks[i].frames))
  }

  function ReaderOf(stage: Stage): Site {
    if stage.ToMedia? then Media else App
  }

  /** What a receiver does with the handles it read. */
  function Received(t: Task, hs: seq<Handle>): seq<Task> {
    if t.stage.ToApp? then [Thread(Arrived, t.times, hs)]
    else if t.stage.ToMedia? then HeldTasks(Media, hs)
    else [Thread(AppRelease, [], hs)]
  }

  function DeliverTask(s: State, i: nat, fail: Option<nat>): State
    requires i < |s.tasks| && Transaction(s.tasks[i])
  {
    var t := s.tasks[i];
    if t.stage.ToService? then
      Replace(s, i, []).(returned := s.returned + multiset(t.frames))
    else
      var n := ReadCount(t.frames, fail);
      var hs := Dup(ReaderOf(t.stage), t.frames[..n], s.ledger.next);
      if n < |t.frames| then
        if t.stage == MediaRelease(true) then PassNull(Reading(s, hs), i)
        else Abandon(Reading(s, hs), i, hs, t.frames)
      else Replace(Reading(s, hs), i, Received(t, hs))
  }

  /** A batch goes into a parcel and the sender's copies are left to be closed. */
  function PassOn(stage: Stage, t: Task): seq<Task> {
    [Parcel(stage, t.times, FramesOf(t.hs)), CloseTask(App, t.hs)]
  }

  function AdvanceTask(s: State, i: nat): State
    requires i < |s.tasks| && Running(s.tasks[i])
  {
    var t := s.tasks[i];
    match t.stage
    case Arrived =>
      Replace(s, i, [Thread(if s.proxy then Forward else NoProxy, t.times, t.hs)])
    case NoProxy =>
      Replace(s, i, if s.listener then HeldTasks(App, t.hs) else [Thread(AppRelease, [], t.hs)])
    case Forward =>
      if |t.times| != |t.hs| then Abandon(s, i, t.hs, t.frames)
      else Replace(s, i, PassOn(ToMedia, t))
    case AppRelease =>
      if !s.connected then Abandon(s, i, t.hs, t.frames)
      else Replace(s, i, PassOn(ToService, t))
    case Closing(site) =>
      Replace(s, i, []).(ledger := CloseAll(s.ledger, site, t.hs))
  }

  /** The listener of `site` picks handles it holds, in any order; every index refers to
      the list that is left after the picks before it. */
  predicate CanPick(ts: seq<Task>, site: Site, picks: seq<nat>)
    decreases |picks|
  {
    picks == [] ||
    (picks[0] < |ts| && ts[picks[0]].stage == Held(site) && |ts[picks[0]].hs| == 1
     && CanPick(Without(ts, picks[0]), site, picks[1..]))
  }

  function PickedHandles(ts: seq<Task>, site: Site, picks: seq<nat>): seq<Handle>
    requires CanPick(ts, site, picks)
    decreases |picks|
  {
    if picks == [] then []
    else ts[picks[0]].hs + PickedHandles(Without(ts, picks[0]), site, picks[1..])
  }

  function PickedRest(ts: seq<Task>, site: Site, picks: seq<nat>): seq<Task>
    requires CanPick(ts, site, picks)
    decreases |picks|
  {
    if picks == [] then ts else PickedRest(Without(ts, picks[0]), site, picks[1..])
  }

  /** In the app a release is a call of Camera; in the media server it is a transaction. */
  function ReleaseTasks(site: Site, hs: seq<Handle>, single: bool): seq<Task> {
    if site.App? then [Thread(AppRelease, [], hs)]
    else [Parcel(MediaRelease(single), [], FramesOf(hs)), CloseTask(Media, hs)]
  }

  predicate Enabled(s: State, e: Event) {
    match e
    case Deliver(i, _) => i < |s.tasks| && Transaction(s.tasks[i])
    case Advance(i) => i < |s.tasks| && Running(s.tasks[i])
    case Release(site, picks, single) => CanPick(s.tasks, site, picks) && (single ==> |picks| == 1)
    case _ => true
  }

  /** `n` frame numbers from `from` on. */
  function Numbers(from: nat, n: nat): (fs: seq<Frame>)
    ensures |fs| == n
  {
    seq(n, k requires 0 <= k < n => from + k)
  }

  function Next(s: State, e: Event): State
    requires Enabled(s, e)
  {
    match e
    case Send(times, n) =>
      // BpCameraClient refuses a batch whose sizes differ, before anything is written
      if |times| != n then s
      else s.(tasks := s.tasks + [Parcel(ToApp, times, Numbers(s.sent, n))], sent := s.sent + n)
    case Deliver(i, fail) => DeliverTask(s, i, fail)
    case Advance(i) => AdvanceTask(s, i)
    case Release(site, picks, single) =>
      s.(tasks := PickedRest(s.tasks, site, picks)
                  + ReleaseTasks(site, PickedHandles(s.tasks, site, picks), single))
    case SetListener(present) => s.(listener := present)
    case SetProxy(present) => s.(proxy := present)
    case SetConnected(on) => s.(connected := on)
  }

  // ----- Runs -----

  predicate RunFrom(s: State, run: seq<Event>)
    decreases |run|
  {
    run == [] || (Enabled(s, run[0]) && RunFrom(Next(s, run[0]), run[1..]))
  }

  function After(s: State, run: seq<Event>): State
    requires RunFrom(s, run)
    decreases |run|
  {
    if run == [] then s else After(Next(s, run[0]), run[1..])
  }

  // ----- The invariant -----

  /** How many tasks are responsible for `h`. */
  function Owners(ts: seq<Task>, h: Handle): nat {
    if ts == [] then 0 else multiset(ts[0].hs)[h] + Owners(ts[1..], h)
  }

  /** How many times `f` is on its way back to the service. */
  function Carriers(ts: seq<Task>, f: Frame): nat {
    if ts == [] then 0 else multiset(ts[0].frames)[f] + Carriers(ts[1..], f)
  }

  predicate AllAt(hs: seq<Handle>, site: Site) {
    forall h :: h in hs ==> h.site == site
  }

  predicate TaskOk(t: Task) {
    && ((t.stage.ToApp? || t.stage.ToMedia?) ==> |t.times| == |t.frames|)
    && ((t.stage.Arrived? || t.stage.NoProxy? || t.stage.Forward?) ==> |t.times| == |t.hs|)
    && (Transaction(t) ==> t.hs == [])
    && (!Transaction(t) && !t.stage.Closing? ==> t.frames == FramesOf(t.hs))
    && (t.stage.Held? ==> |t.hs| == 1)
    && (t.stage.Closing? ==> t.frames == [])
    && (t.stage == MediaRelease(true) ==> |t.frames| == 1)
    && AllAt(t.hs, if t.stage.Held? || t.stage.Closing? then t.stage.site else App)
  }

  /** A handle is open or was closed once; an open one has exactly one owner or is leaked. */
  ghost predicate HandleOk(s: State, h: Handle) {
    && (h in s.ledger.made ==> h.id < s.ledger.next)
    && One(h in s.ledger.made) == One(h in s.ledger.open) + s.ledger.closed[h]
    && One(h in s.ledger.open) == Owners(s.tasks, h) + s.leaked[h]
  }

  /** A frame that was sent is in one place: on its way, returned, or lost. */
  ghost predicate FrameOk(s: State, f: Frame) {
    One(f < s.sent) == Carriers(s.tasks, f) + s.returned[f] + s.lost[f]
  }

  ghost predicate Inv(s: State) {
    && (forall h :: HandleOk(s, h))
    && (forall f :: FrameOk(s, f))
    && (forall t :: t in s.tasks ==> TaskOk(t))
    && !s.ledger.fault
  }

  // ----- Counting -----

  lemma {:induction false} OwnersAppend(a: seq<Task>, b: seq<Task>, h: Handle)
    ensures Owners(a + b, h) == Owners(a, h) + Owners(b, h)
  {
    if a == [] {
      assert a + b == b;
    } else {
      assert (a + b)[1..] == a[1..] + b;
      OwnersAppend(a[1..], b, h);
    }
  }

  lemma {:induction false} CarriersAppend(a: seq<Task>, b: seq<Task>, f: Frame)
    ensures Carriers(a + b, f) == Carriers(a, f) + Carriers(b, f)
  {
    if a == [] {
      assert a + b == b;
    } else {
      assert (a + b)[1..] == a[1..] + b;
      CarriersAppend(a[1..], b, f);
    }
  }

  lemma OwnersReplace(s: State, i: nat, ts: seq<Task>, h: Handle)
    requires i < |s.tasks|
    ensures Owners(Replace(s, i, ts).tasks, h) + multiset(s.tasks[i].hs)[h]
         == Owners(s.tasks, h) + Owners(ts, h)
  {
    var a, b := s.tasks[..i], s.tasks[i + 1..];
    var mid := [s.tasks[i]];
    assert s.tasks == (a + mid) + b;
    OwnersAppend(a + mid, b, h);
    OwnersAppend(a, mid, h);
    OwnersAppend(a, b, h);
    OwnersAppend(a + b, ts, h);
  }

  lemma CarriersReplace(s: State, i: nat, ts: seq<Task>, f: Frame)
    requires i < |s.tasks|
    ensures Carriers(Replace(s, i, ts).tasks, f) + multiset(s.tasks[i].frames)[f]
         == Carriers(s.tasks, f) + Carriers(ts, f)
  {
    var a, b := s.tasks[..i], s.tasks[i + 1..];
    var mid := [s.tasks[i]];
    assert s.tasks == (a + mid) + b;
    CarriersAppend(a + mid, b, f);
    CarriersAppend(a, mid, f);
    CarriersAppend(a, b, f);
    CarriersAppend(a + b, ts, f);
  }

  /** `ts` owns exactly `hs` and carries exactly `fs`. */
  ghost predicate Worth(ts: seq<Task>, hs: seq<Handle>, fs: seq<Frame>) {
    && (forall h :: Owners(ts, h) == multiset(hs)[h])
    && (forall f :: Carriers(ts, f) == multiset(fs)[f])
  }

  lemma WorthOne(t: Task)
    ensures Worth([t], t.hs, t.frames)
  {
  }

  lemma WorthTwo(t: Task, u: Task)
    requires t.hs == [] && u.frames == []
    ensures Worth([t, u], u.hs, t.frames)
  {
    forall h ensures Owners([t, u], h) == multiset(u.hs)[h] {
      OwnersAppend([t], [u], h);
      assert [t] + [u] == [t, u];
    }
    forall f ensures Carriers([t, u], f) == multiset(t.frames)[f] {
      CarriersAppend([t], [u], f);
      assert [t] + [u] == [t, u];
    }
  }

  lemma {:induction false} OwnersHeld(site: Site, hs: seq<Handle>, h: Handle)
    ensures Owners(HeldTasks(site, hs), h) == multiset(hs)[h]
  {
    if hs != [] {
      OwnersHeld(site, hs[1..], h);
      assert HeldTasks(site, hs)[1..] == HeldTasks(site, hs[1..]);
      assert hs == [hs[0]] + hs[1..];
    }
  }

  lemma {:induction false} CarriersHeld(site: Site, hs: seq<Handle>, f: Frame)
    ensures Carriers(HeldTasks(site, hs), f) == multiset(FramesOf(hs))[f]
  {
    if hs != [] {
      CarriersHeld(site, hs[1..], f);
      var ts := HeldTasks(site, hs);
      assert ts[1..] == HeldTasks(site, hs[1..]);
      assert ts[0].frames == [hs[0].frame];
      assert FramesOf(hs) == [hs[0].frame] + FramesOf(hs[1..]);
    }
  }

  lemma WorthHeld(site: Site, hs: seq<Handle>)
    ensures Worth(HeldTasks(site, hs), hs, FramesOf(hs))
  {
    forall h ensures Owners(HeldTasks(site, hs), h) == multiset(hs)[h] {
      OwnersHeld(site, hs, h);
    }
    forall f ensures Carriers(HeldTasks(site, hs), f) == multiset(FramesOf(hs))[f] {
      CarriersHeld(site, hs, f);
    }
  }

  lemma {:induction false} Distinct<T>(xs: seq<T>, x: T)
    requires forall i, j :: 0 <= i < j < |xs| ==> xs[i] != xs[j]
    ensures multiset(xs)[x] == One(x in xs)
  {
    if xs != [] {
      Distinct(xs[1..], x);
      assert xs == [xs[0]] + xs[1..];
    }
  }

  /** The duplicates made from fresh numbers are new and pairwise different. */
  lemma DupFresh(site: Site, frames: seq<Frame>, id: nat, h: Handle)
    ensures multiset(Dup(site, frames, id))[h] == One(h in Dup(site, frames, id))
    ensures h in Dup(site, frames, id) ==> id <= h.id < id + |frames| && h.site == site
  {
    Distinct(Dup(site, frames, id), h);
  }

  // ----- Every step keeps the invariant -----

  /** A step that swaps one task for others of the same worth changes no account. */
  lemma ReplaceKeeps(s: State, i: nat, ts: seq<Task>)
    requires Inv(s) && i < |s.tasks|
    requires Worth(ts, s.tasks[i].hs, s.tasks[i].frames)
    requires forall t :: t in ts ==> TaskOk(t)
    ensures Inv(Replace(s, i, ts))
  {
    var r := Replace(s, i, ts);
    forall h ensures HandleOk(r, h) {
      assert HandleOk(s, h);
      OwnersReplace(s, i, ts, h);
    }
    forall f ensures FrameOk(r, f) {
      assert FrameOk(s, f);
      CarriersReplace(s, i, ts, f);
    }
  }

  lemma AbandonKeeps(s: State, i: nat)
    requires Inv(s) && i < |s.tasks|
    ensures Inv(Abandon(s, i, s.tasks[i].hs, s.tasks[i].frames))
  {
    var r := Abandon(s, i, s.tasks[i].hs, s.tasks[i].frames);
    forall h ensures HandleOk(r, h) {
      assert HandleOk(s, h);
      OwnersReplace(s, i, [], h);
    }
    forall f ensures FrameOk(r, f) {
      assert FrameOk(s, f);
      CarriersReplace(s, i, [], f);
    }
  }

  /** Reading duplicates: the new handles belong to the task that was being delivered. */
  lemma OpenedKeeps(s: State, i: nat, site: Site, frames: seq<Frame>)
    requires Inv(s) && i < |s.tasks| && s.tasks[i].hs == []
    ensures var hs := Dup(site, frames, s.ledger.next);
            var r := Reading(s, hs);
            && (forall h :: (h in r.ledger.made ==> h.id < r.ledger.next)
                            && One(h in r.ledger.made) == One(h in r.ledger.open) + r.ledger.closed[h]
                            && One(h in r.ledger.open) == Owners(r.tasks, h) + multiset(hs)[h] + r.leaked[h])
            && (forall f :: FrameOk(r, f))
  {
    var hs := Dup(site, frames, s.ledger.next);
    var r := Reading(s, hs);
    forall h
      ensures h in r.ledger.made ==> h.id < r.ledger.next
      ensures One(h in r.ledger.made) == One(h in r.ledger.open) + r.ledger.closed[h]
      ensures One(h in r.ledger.open) == Owners(r.tasks, h) + multiset(hs)[h] + r.leaked[h]
    {
      assert HandleOk(s, h);
      DupFresh(site, frames, s.ledger.next, h);
    }
    assert forall f :: FrameOk(s, f) ==> FrameOk(r, f);
  }

  lemma ReadFailureKeeps(s: State, i: nat, site: Site, n: nat)
    requires Inv(s) && i < |s.tasks| && s.tasks[i].hs == [] && n <= |s.tasks[i].frames|
    ensures var hs := Dup(site, s.tasks[i].frames[..n], s.ledger.next);
            Inv(Abandon(Reading(s, hs), i, hs, s.tasks[i].frames))
  {
    var fs := s.tasks[i].frames;
    var hs := Dup(site, fs[..n], s.ledger.next);
    var m := Reading(s, hs);
    var r := Abandon(m, i, hs, fs);
    OpenedKeeps(s, i, site, fs[..n]);
    forall h ensures HandleOk(r, h) {
      OwnersReplace(m, i, [], h);
    }
    forall f ensures FrameOk(r, f) {
      assert FrameOk(m, f);
      CarriersReplace(m, i, [], f);
    }
  }

  lemma PassNullKeeps(s: State, i: nat)
    requires Inv(s) && i < |s.tasks| && s.tasks[i].hs == []
    ensures Inv(PassNull(Reading(s, []), i))
  {
    var ts := [Thread(AppRelease, [], [])];
    var m := Reading(s, []);
    var r := PassNull(m, i);
    WorthOne(ts[0]);
    forall h ensures HandleOk(r, h) {
      assert HandleOk(s, h);
      OwnersReplace(m, i, ts, h);
    }
    forall f ensures FrameOk(r, f) {
      assert FrameOk(s, f);
      CarriersReplace(m, i, ts, f);
    }
  }

  lemma ReceiveKeeps(s: State, i: nat, site: Site, ts: seq<Task>)
    requires Inv(s) && i < |s.tasks| && s.tasks[i].hs == []
    requires Worth(ts, Dup(site, s.tasks[i].frames, s.ledger.next), s.tasks[i].frames)
    requires forall t :: t in ts ==> TaskOk(t)
    ensures Inv(Replace(Reading(s, Dup(site, s.tasks[i].frames, s.ledger.next)), i, ts))
  {
    var fs := s.tasks[i].frames;
    var m := Reading(s, Dup(site, fs, s.ledger.next));
    var r := Replace(m, i, ts);
    OpenedKeeps(s, i, site, fs);
    forall h ensures HandleOk(r, h) {
      OwnersReplace(m, i, ts, h);
    }
    forall f ensures FrameOk(r, f) {
      assert FrameOk(m, f);
      CarriersReplace(m, i, ts, f);
    }
  }

  lemma ReceivedOk(t: Task, id: nat)
    requires Transaction(t) && !t.stage.ToService? && TaskOk(t)
    ensures var hs := Dup(ReaderOf(t.stage), t.frames, id);
            && Worth(Received(t, hs), hs, t.frames)
            && forall u :: u in Received(t, hs) ==> TaskOk(u)
  {
    var hs := Dup(ReaderOf(t.stage), t.frames, id);
    assert FramesOf(hs) == t.frames;
    if t.stage.ToMedia? {
      WorthHeld(Media, hs);
    } else {
      WorthOne(Received(t, hs)[0]);
    }
  }

  lemma ReturnKeeps(s: State, i: nat)
    requires Inv(s) && i < |s.tasks| && s.tasks[i].hs == []
    ensures Inv(Replace(s, i, []).(returned := s.returned + multiset(s.tasks[i].frames)))
  {
    var r := Replace(s, i, []).(returned := s.returned + multiset(s.tasks[i].frames));
    forall h ensures HandleOk(r, h) {
      assert HandleOk(s, h);
      OwnersReplace(s, i, [], h);
    }
    forall f ensures FrameOk(r, f) {
      assert FrameOk(s, f);
      CarriersReplace(s, i, [], f);
    }
  }

  lemma DeliverKeeps(s: State, i: nat, fail: Option<nat>)
    requires Inv(s) && i < |s.tasks| && Transaction(s.tasks[i])
    ensures Inv(DeliverTask(s, i, fail))
  {
    var t := s.tasks[i];
    assert TaskOk(t);
    if t.stage.ToService? {
      ReturnKeeps(s, i);
    } else {
      var n := ReadCount(t.frames, fail);
      if n < |t.frames| && t.stage == MediaRelease(true) {
        assert Dup(App, t.frames[..n], s.ledger.next) == [];
        PassNullKeeps(s, i);
      } else if n < |t.frames| {
        ReadFailureKeeps(s, i, ReaderOf(t.stage), n);
      } else {
        assert t.frames[..n] == t.frames;
        ReceivedOk(t, s.ledger.next);
        ReceiveKeeps(s, i, ReaderOf(t.stage), Received(t, Dup(ReaderOf(t.stage), t.frames, s.ledger.next)));
      }
    }
  }

  /** Closing handles of the process's own that are open, each of them once, never faults. */
  lemma {:induction false} CloseAllEffect(l: Ledger, site: Site, hs: seq<Handle>)
    requires AllAt(hs, site)
    requires forall h :: multiset(hs)[h] <= One(h in l.open)
    ensures var r := CloseAll(l, site, hs);
            && r == l.(open := r.open, closed := r.closed)
            && (forall h :: One(h in l.open) == One(h in r.open) + multiset(hs)[h])
            && (forall h :: r.closed[h] == l.closed[h] + multiset(hs)[h])
    decreases |hs|
  {
    if hs != [] {
      var m := CloseOne(l, site, hs[0]);
      assert hs == [hs[0]] + hs[1..];
      assert forall h :: multiset(hs)[h] == One(h == hs[0]) + multiset(hs[1..])[h];
      assert forall h :: One(h in l.open) == One(h in m.open) + One(h == hs[0]) by {
        assert multiset(hs)[hs[0]] <= One(hs[0] in l.open);
      }
      CloseAllEffect(m, site, hs[1..]);
    }
  }

  lemma CloseKeeps(s: State, i: nat, site: Site)
    requires Inv(s) && i < |s.tasks| && s.tasks[i].stage == Closing(site)
    ensures Inv(Replace(s, i, []).(ledger := CloseAll(s.ledger, site, s.tasks[i].hs)))
  {
    var hs := s.tasks[i].hs;
    assert TaskOk(s.tasks[i]);
    forall h ensures multiset(hs)[h] <= One(h in s.ledger.open) {
      assert HandleOk(s, h);
      OwnersReplace(s, i, [], h);
    }
    CloseAllEffect(s.ledger, site, hs);
    var r := Replace(s, i, []).(ledger := CloseAll(s.ledger, site, hs));
    forall h ensures HandleOk(r, h) {
      assert HandleOk(s, h);
      OwnersReplace(s, i, [], h);
    }
    forall f ensures FrameOk(r, f) {
      assert FrameOk(s, f);
      CarriersReplace(s, i, [], f);
    }
  }

  lemma PassOnKeeps(s: State, i: nat, stage: Stage)
    requires Inv(s) && i < |s.tasks| && (stage.ToMedia? || stage.ToService?)
    requires stage.ToMedia? ==> |s.tasks[i].times| == |s.tasks[i].hs|
    requires s.tasks[i].frames == FramesOf(s.tasks[i].hs) && AllAt(s.tasks[i].hs, App)
    ensures Inv(Replace(s, i, PassOn(stage, s.tasks[i])))
  {
    var t := s.tasks[i];
    WorthTwo(Parcel(stage, t.times, FramesOf(t.hs)), CloseTask(App, t.hs));
    ReplaceKeeps(s, i, PassOn(stage, t));
  }

  lemma CallbackKeeps(s: State, i: nat)
    requires Inv(s) && i < |s.tasks| && (s.tasks[i].stage.Arrived? || s.tasks[i].stage.NoProxy?)
    ensures Inv(AdvanceTask(s, i))
  {
    var t := s.tasks[i];
    assert TaskOk(t);
    if t.stage.NoProxy? && s.listener {
      WorthHeld(App, t.hs);
      ReplaceKeeps(s, i, HeldTasks(App, t.hs));
    } else if t.stage.NoProxy? {
      HandOnKeeps(s, i, AppRelease, []);
    } else {
      HandOnKeeps(s, i, if s.proxy then Forward else NoProxy, t.times);
    }
  }

  lemma HandOnKeeps(s: State, i: nat, stage: Stage, times: seq<int>)
    requires Inv(s) && i < |s.tasks| && s.tasks[i].frames == FramesOf(s.tasks[i].hs) && AllAt(s.tasks[i].hs, App)
    requires stage.AppRelease? || ((stage.Forward? || stage.NoProxy?) && |times| == |s.tasks[i].hs|)
    ensures Inv(Replace(s, i, [Thread(stage, times, s.tasks[i].hs)]))
  {
    var u := Thread(stage, times, s.tasks[i].hs);
    WorthOne(u);
    ReplaceKeeps(s, i, [u]);
  }

  lemma AdvanceKeeps(s: State, i: nat)
    requires Inv(s) && i < |s.tasks| && Running(s.tasks[i])
    ensures Inv(AdvanceTask(s, i))
  {
    var t := s.tasks[i];
    assert TaskOk(t);
    if t.stage.Forward? {
      PassOnKeeps(s, i, ToMedia);
    } else if t.stage.AppRelease? {
      if s.connected {
        PassOnKeeps(s, i, ToService);
      } else {
        AbandonKeeps(s, i);
      }
    } else if t.stage.Closing? {
      CloseKeeps(s, i, t.stage.site);
    } else {
      CallbackKeeps(s, i);
    }
  }

  lemma {:induction false} OwnersPicked(ts: seq<Task>, site: Site, picks: seq<nat>, h: Handle)
    requires CanPick(ts, site, picks)
    ensures Owners(ts, h)
         == multiset(PickedHandles(ts, site, picks))[h] + Owners(PickedRest(ts, site, picks), h)
    decreases |picks|
  {
    if picks != [] {
      OwnersReplace(INITIAL.(tasks := ts), picks[0], [], h);
      assert Without(ts, picks[0]) + [] == Without(ts, picks[0]);
      OwnersPicked(Without(ts, picks[0]), site, picks[1..], h);
    }
  }

  lemma FramesAppend(a: seq<Handle>, b: seq<Handle>, f: Frame)
    ensures multiset(FramesOf(a + b))[f] == multiset(FramesOf(a))[f] + multiset(FramesOf(b))[f]
  {
    assert FramesOf(a + b) == FramesOf(a) + FramesOf(b);
  }

  predicate HeldOk(ts: seq<Task>) {
    forall t :: t in ts && t.stage.Held? ==> t.frames == FramesOf(t.hs)
  }

  lemma {:induction false} CarriersPicked(ts: seq<Task>, site: Site, picks: seq<nat>, f: Frame)
    requires CanPick(ts, site, picks) && HeldOk(ts)
    ensures Carriers(ts, f)
         == multiset(FramesOf(PickedHandles(ts, site, picks)))[f] + Carriers(PickedRest(ts, site, picks), f)
    decreases |picks|
  {
    if picks != [] {
      var p := picks[0];
      var ts' := Without(ts, p);
      CarriersReplace(INITIAL.(tasks := ts), p, [], f);
      assert ts' + [] == ts';
      CarriersPicked(ts', site, picks[1..], f);
      FramesAppend(ts[p].hs, PickedHandles(ts', site, picks[1..]), f);
    }
  }

  lemma {:induction false} PickedOk(ts: seq<Task>, site: Site, picks: seq<nat>)
    requires CanPick(ts, site, picks)
    requires forall t :: t in ts ==> TaskOk(t)
    ensures forall t :: t in PickedRest(ts, site, picks) ==> TaskOk(t)
    ensures AllAt(PickedHandles(ts, site, picks), site) && |PickedHandles(ts, site, picks)| == |picks|
    decreases |picks|
  {
    if picks != [] {
      assert TaskOk(ts[picks[0]]);
      PickedOk(Without(ts, picks[0]), site, picks[1..]);
    }
  }

  lemma WorthReleased(site: Site, hs: seq<Handle>, single: bool)
    ensures Worth(ReleaseTasks(site, hs, single), hs, FramesOf(hs))
  {
    if site.App? {
      WorthOne(Thread(AppRelease, [], hs));
    } else {
      WorthTwo(Parcel(MediaRelease(single), [], FramesOf(hs)), CloseTask(Media, hs));
    }
  }

  lemma OwnersReleased(ts: seq<Task>, site: Site, picks: seq<nat>, single: bool, h: Handle)
    requires CanPick(ts, site, picks)
    ensures Owners(PickedRest(ts, site, picks) + ReleaseTasks(site, PickedHandles(ts, site, picks), single), h)
         == Owners(ts, h)
  {
    var hs := PickedHandles(ts, site, picks);
    WorthReleased(site, hs, single);
    OwnersPicked(ts, site, picks, h);
    OwnersAppend(PickedRest(ts, site, picks), ReleaseTasks(site, hs, single), h);
  }

  lemma CarriersReleased(ts: seq<Task>, site: Site, picks: seq<nat>, single: bool, f: Frame)
    requires CanPick(ts, site, picks) && HeldOk(ts)
    ensures Carriers(PickedRest(ts, site, picks) + ReleaseTasks(site, PickedHandles(ts, site, picks), single), f)
         == Carriers(ts, f)
  {
    var hs := PickedHandles(ts, site, picks);
    WorthReleased(site, hs, single);
    CarriersPicked(ts, site, picks, f);
    CarriersAppend(PickedRest(ts, site, picks), ReleaseTasks(site, hs, single), f);
  }

  lemma ReleasedOk(ts: seq<Task>, site: Site, picks: seq<nat>, single: bool)
    requires CanPick(ts, site, picks) && (single ==> |picks| == 1)
    requires forall t :: t in ts ==> TaskOk(t)
    ensures HeldOk(ts)
    ensures forall t :: t in PickedRest(ts, site, picks) + ReleaseTasks(site, PickedHandles(ts, site, picks), single)
                        ==> TaskOk(t)
  {
    PickedOk(ts, site, picks);
  }

  lemma ReleaseKeeps(s: State, site: Site, picks: seq<nat>, single: bool)
    requires Inv(s) && CanPick(s.tasks, site, picks) && (single ==> |picks| == 1)
    ensures Inv(Next(s, Release(site, picks, single)))
  {
    var r := Next(s, Release(site, picks, single));
    ReleasedOk(s.tasks, site, picks, single);
    forall h ensures HandleOk(r, h) {
      assert HandleOk(s, h);
      OwnersReleased(s.tasks, site, picks, single, h);
    }
    forall f ensures FrameOk(r, f) {
      assert FrameOk(s, f);
      CarriersReleased(s.tasks, site, picks, single, f);
    }
  }

  lemma NumbersAre(n: nat, m: nat, f: Frame)
    ensures multiset(Numbers(n, m))[f] == One(n <= f < n + m)
  {
    Distinct(Numbers(n, m), f);
    if n <= f < n + m {
      assert Numbers(n, m)[f - n] == f;
    }
  }

  lemma SendKeeps(s: State, times: seq<int>, n: nat)
    requires Inv(s)
    ensures Inv(Next(s, Send(times, n)))
  {
    var r := Next(s, Send(times, n));
    if |times| == n {
      var t := Parcel(ToApp, times, Numbers(s.sent, n));
      WorthOne(t);
      forall h ensures HandleOk(r, h) {
        assert HandleOk(s, h);
        OwnersAppend(s.tasks, [t], h);
      }
      forall f ensures FrameOk(r, f) {
        assert FrameOk(s, f);
        NumbersAre(s.sent, n, f);
        CarriersAppend(s.tasks, [t], f);
      }
    }
  }

  lemma StepKeeps(s: State, e: Event)
    requires Inv(s) && Enabled(s, e)
    ensures Inv(Next(s, e))
  {
    match e
    case Send(times, n) => SendKeeps(s, times, n);
    case Deliver(i, fail) => DeliverKeeps(s, i, fail);
    case Advance(i) => AdvanceKeeps(s, i);
    case Release(site, picks, single) => ReleaseKeeps(s, site, picks, single);
    case _ =>
      var r := Next(s, e);
      assert forall h :: HandleOk(s, h) ==> HandleOk(r, h);
      assert forall f :: FrameOk(s, f) ==> FrameOk(r, f);
  }

  lemma {:induction false} RunKeeps(s: State, run: seq<Event>)
    requires Inv(s) && RunFrom(s, run)
    ensures Inv(After(s, run))
    decreases |run|
  {
    if run != [] {
      StepKeeps(s, run[0]);
      RunKeeps(Next(s, run[0]), run[1..]);
    }
  }

  lemma InitialInv()
    ensures Inv(INITIAL)
  {
    assert forall h :: HandleOk(INITIAL, h);
    assert forall f :: FrameOk(INITIAL, f);
  }
}
