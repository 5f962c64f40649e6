/**
 The functions of camera/Camera.cpp and of the four binder files, as methods on the shared state.
 */
module RecordingCode {
  import opened Wrappers
  import opened RecordingFrames

  /** The state that camera/Camera.cpp and the binder files work on.  Each method runs one
      uninterrupted stretch of that code, for the task with number `i`. */
  class Recorder {
    var connected: bool
    var listener: bool
    var proxy: bool
    var tasks: seq<Task>
    var returned: multiset<Frame>
    var sent: nat
    var next: nat
    var open: set<Handle>
    ghost var made: set<Handle>
    ghost var closed: multiset<Handle>
    ghost var fault: bool
    ghost var leaked: multiset<Handle>
    ghost var lost: multiset<Frame>

    ghost function Handles(): Ledger
      reads this
    {
      Ledger(next, made, open, closed, fault)
    }

    ghost function View(): State
      reads this
    {
      State(connected, listener, proxy, tasks, Handles(), sent, returned, leaked, lost)
    }

    constructor ()
      ensures View() == INITIAL
    {
      connected, listener, proxy, tasks, next := false, false, false, [], 0;
      open, returned, sent, fault := {}, multiset{}, 0, false;
      made, closed, leaked, lost := {}, multiset{}, multiset{}, multiset{};
    }

    /** The thread of task `i` goes on as the tasks `ts`. */
    method Become(i: nat, ts: seq<Task>)
      requires i < |tasks|
      modifies this`tasks
      ensures View() == Replace(old(View()), i, ts)
    {
      tasks := Without(tasks, i) + ts;
    }

    /** An early return: task `i` ends, and nobody knows about its handles any more. */
    method DropBatch(i: nat, hs: seq<Handle>, frames: seq<Frame>)
      requires i < |tasks|
      modifies this`tasks, this`leaked, this`lost
      ensures View() == Abandon(old(View()), i, hs, frames)
    {
      tasks := Without(tasks, i) + [];
      leaked, lost := leaked + multiset(hs), lost + multiset(frames);
    }

    /** The release of a single frame goes on with the null handle that was read. */
    method PassNullOn(i: nat)
      requires i < |tasks|
      modifies this`tasks, this`lost
      ensures View() == PassNull(old(View()), i)
    {
      lost := lost + multiset(tasks[i].frames);
      tasks := Without(tasks, i) + [Thread(AppRelease, [], [])];
    }

    /** The read loops of the onTransact functions: each handle read is a new duplicate. */
    method ReadHandles(site: Site, frames: seq<Frame>, fail: Option<nat>)
      returns (hs: seq<Handle>, ok: bool)
      modifies this`next, this`open, this`made
      ensures hs == Dup(site, frames[..ReadCount(frames, fail)], old(next))
      ensures ok <==> ReadCount(frames, fail) == |frames|
      ensures Handles() == Opened(old(Handles()), hs)
    {
      hs, ok := [], true;
      var k := 0;
      while k < |frames|
        invariant 0 <= k <= ReadCount(frames, fail)
        invariant hs == Dup(site, frames[..k], old(next))
        invariant next == old(next) + k
        invariant open == old(open) + Elements(hs) && made == old(made) + Elements(hs)
      {
        if fail == Some(k) {
          ok := false;
          return;
        }
        var h := Handle(site, next, frames[k]);
        assert Dup(site, frames[..k + 1], old(next)) == hs + [h];
        assert Elements(hs + [h]) == Elements(hs) + {h};
        next, open, made := next + 1, open + {h}, made + {h};
        hs := hs + [h];
        k := k + 1;
      }
      assert frames[..k] == frames;
    }

    /** The write loops: a parcel refers to the frames behind the handles. */
    method WriteHandles(hs: seq<Handle>) returns (fs: seq<Frame>)
      ensures fs == FramesOf(hs)
    {
      fs := [];
      for k := 0 to |hs|
        invariant fs == FramesOf(hs[..k])
      {
        fs := fs + [hs[k].frame];
      }
      assert hs[..|hs|] == hs;
    }

    /** The loops that close and delete the caller's copies after a transaction. */
    method CloseHandles(site: Site, hs: seq<Handle>)
      modifies this`open, this`closed, this`fault
      ensures Handles() == CloseAll(old(Handles()), site, hs)
    {
      var k := 0;
      while k < |hs|
        invariant 0 <= k <= |hs|
        invariant CloseAll(Handles(), site, hs[k..]) == CloseAll(old(Handles()), site, hs)
      {
        assert hs[k..][0] == hs[k] && hs[k..][1..] == hs[k + 1..];
        fault := fault || hs[k] !in open || hs[k].site != site;
        open := open - {hs[k]};
        closed := closed + multiset{hs[k]};
        k := k + 1;
      }
    }

    /** BnCameraClient::onTransact, BnCameraRecordingProxyListener::onTransact and
        BnCameraRecordingProxy::onTransact, up to the call they make. */
    method OnTransact(i: nat, fail: Option<nat>)
      requires i < |tasks| && Transaction(tasks[i]) && !tasks[i].stage.ToService?
      modifies this
      ensures View() == Next(old(View()), Deliver(i, fail))
    {
      var t := tasks[i];
      var hs, ok := ReadHandles(ReaderOf(t.stage), t.frames, fail);
      if !ok && t.stage == MediaRelease(true) {
        PassNullOn(i);
      } else if !ok {
        DropBatch(i, hs, t.frames);
      } else if t.stage.ToApp? {
        Become(i, [Thread(Arrived, t.times, hs)]);
      } else if t.stage.ToMedia? {
        Become(i, HeldTasks(Media, hs));
      } else {
        Become(i, [Thread(AppRelease, [], hs)]);
      }
    }

    /** Camera::recordingFrameHandleCallbackTimestamp[Batch], first lock section. */
    method FrameCallback(i: nat)
      requires i < |tasks| && tasks[i].stage.Arrived?
      modifies this
      ensures View() == Next(old(View()), Advance(i))
    {
      var t := tasks[i];
      if proxy {
        Become(i, [Thread(Forward, t.times, t.hs)]);
      } else {
        Become(i, [Thread(NoProxy, t.times, t.hs)]);
      }
    }

    /** Camera::recordingFrameHandleCallbackTimestamp[Batch], second lock section. */
    method FrameCallbackNoProxy(i: nat)
      requires i < |tasks| && tasks[i].stage.NoProxy?
      modifies this
      ensures View() == Next(old(View()), Advance(i))
    {
      var t := tasks[i];
      if listener {
        Become(i, HeldTasks(App, t.hs));
      } else {
        Become(i, [Thread(AppRelease, [], t.hs)]);
      }
    }

    /** BpCameraRecordingProxyListener::recordingFrameHandleCallbackTimestamp[Batch]. */
    method ForwardFrames(i: nat)
      requires i < |tasks| && tasks[i].stage.Forward?
      modifies this
      ensures View() == Next(old(View()), Advance(i))
    {
      var t := tasks[i];
      if |t.times| != |t.hs| {
        DropBatch(i, t.hs, t.frames);
      } else {
        var fs := WriteHandles(t.hs);
        Become(i, [Parcel(ToMedia, t.times, fs), CloseTask(App, t.hs)]);
      }
    }

    /** Camera::releaseRecordingFrameHandle[Batch] followed by the one of BpCamera. */
    method ReleaseFrames(i: nat)
      requires i < |tasks| && tasks[i].stage.AppRelease?
      modifies this
      ensures View() == Next(old(View()), Advance(i))
    {
      var t := tasks[i];
      if !connected {
        DropBatch(i, t.hs, t.frames);
      } else {
        var fs := WriteHandles(t.hs);
        Become(i, [Parcel(ToService, t.times, fs), CloseTask(App, t.hs)]);
      }
    }

    /** The tail of the forwarding and releasing functions, after transact. */
    method FinishCall(i: nat)
      requires i < |tasks| && tasks[i].stage.Closing?
      modifies this
      ensures View() == Next(old(View()), Advance(i))
    {
      var t := tasks[i];
      Become(i, []);
      CloseHandles(t.stage.site, t.hs);
    }

    /** The listener takes the handles it is about to release out of what it holds. */
    method TakeHeld(site: Site, picks: seq<nat>) returns (hs: seq<Handle>)
      requires CanPick(tasks, site, picks)
      modifies this`tasks
      ensures hs == PickedHandles(old(tasks), site, picks)
      ensures tasks == PickedRest(old(tasks), site, picks)
    {
      hs := [];
      var k := 0;
      while k < |picks|
        invariant 0 <= k <= |picks|
        invariant CanPick(tasks, site, picks[k..])
        invariant PickedHandles(old(tasks), site, picks) == hs + PickedHandles(tasks, site, picks[k..])
        invariant PickedRest(old(tasks), site, picks) == PickedRest(tasks, site, picks[k..])
      {
        hs := hs + tasks[picks[k]].hs;
        tasks := Without(tasks, picks[k]);
        k := k + 1;
      }
    }

    /** A listener releases handles it holds: in the app through Camera, in the media server
        through BpCameraRecordingProxy::releaseRecordingFrameHandle[Batch]. */
    method ReleaseHeld(site: Site, picks: seq<nat>, single: bool)
      requires CanPick(tasks, site, picks) && (single ==> |picks| == 1)
      modifies this`tasks
      ensures View() == Next(old(View()), Release(site, picks, single))
    {
      var hs := TakeHeld(site, picks);
      if site.App? {
        tasks := tasks + [Thread(AppRelease, [], hs)];
      } else {
        var fs := WriteHandles(hs);
        tasks := tasks + [Parcel(MediaRelease(single), [], fs), CloseTask(Media, hs)];
      }
    }
  }
}
