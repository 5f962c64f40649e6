/**
 What holds of the tracks of the simple player (cmds/stagefright/SimplePlayer.cpp) over every run:
 each is the outcome of a run of rounds, and with whole frames nothing ends the process.
 */
module SimplePlayerRuns {
  import opened PlayerInput
  import opened SimplePlayer
  import opened Wrappers
  import PT = PlayerTrack
  import PF = PlayerFrames

  // ----- Tracks of a player -----

  ghost predicate TracksFromRounds(p: Player) {
    p.failure == Running ==> forall c :: c in p.codecs ==> PT.FromRounds(c.track)
  }

  lemma FreshFromRounds()
    ensures PT.FromRounds(PT.FRESH)
  {
    assert PT.Made(PT.FRESH, []);
  }

  /** What a round of work that does not end the process makes of one track. */
  lemma WorkedTrack(p: Player, env: Env, k: nat)
    requires EnvOk(env) && Ready(p) && p.failure == Running && k < |p.codecs|
    requires p.extractor && Ids(p.codecs) <= p.live && OnDoMoreStuff(p, env).failure == Running
    ensures var q, was := OnDoMoreStuff(p, env), p.codecs[k];
            |q.codecs| == |p.codecs| && q.codecs[k].granted == was.granted + env.inputs(was.id)
            && q.codecs[k].track
               == PT.DoRound(was.track, PT.Round(env.outputs(was.id), env.nowUs, q.startUs, env.plays(was.id)))
  {
    var q, fed := OnDoMoreStuff(p, env), Fed(p, env).0;
    var drained := DrainAll(p.codecs, env);
    FeedAllOnlyInput(drained, p.samples, p.next);
    assert fed[k] == drained[k].(avail := fed[k].avail, queued := fed[k].queued);
    RenderedAll(fed, env, q.startUs, k);
  }

  lemma WorkFromRounds(p: Player, env: Env)
    requires EnvOk(env) && Ready(p) && p.failure == Running && TracksFromRounds(p) && !Short(p.codecs)
    ensures TracksFromRounds(OnDoMoreStuff(p, env))
  {
    var q := OnDoMoreStuff(p, env);
    if q.failure == Running {
      forall c | c in q.codecs ensures PT.FromRounds(c.track) {
        var k :| 0 <= k < |q.codecs| && q.codecs[k] == c;
        var was := p.codecs[k];
        assert was in p.codecs && !was.track.aborted;
        WorkedTrack(p, env, k);
        PT.OneMoreRound(was.track, PT.Round(env.outputs(was.id), env.nowUs, q.startUs, env.plays(was.id)));
      }
    }
  }

  lemma PrepareFromRounds(p: Player, env: Env)
    requires Inv(p, 0) && p.phase == Unprepared && EnvOk(env)
    ensures forall c :: c in OnPrepare(p, env).codecs ==> PT.FromRounds(c.track)
  {
    FreshFromRounds();
    if env.source.Some? {
      var source, cs := env.source.value, OnPrepare(p, env).codecs;
      assert p.codecs + NewCodecs(p.made, source, |source.keys|) == NewCodecs(p.made, source, |source.keys|);
      forall c | c in cs ensures c.track == PT.FRESH {
        var k :| 0 <= k < |cs| && cs[k] == c;
        ConfiguredOne(cs, p.made, source, env.config, k);
      }
    }
  }

  lemma StepFromRounds(p: Player, e: Event)
    requires Good(p) && Enabled(p, e) && TracksFromRounds(p)
    ensures TracksFromRounds(Step(p, e))
  {
    if e.Deliver? {
      var m, p0 := p.pending[e.i], p.(pending := Without(p.pending, e.i));
      if m == Work(p.generation) {
        WorkFromRounds(p0, e.env);
      } else if (m.Prepare? || m.Start?) && p.phase == Unprepared {
        TimesWithout(p.pending, e.i, Work(p.generation));
        PrepareFromRounds(p0, e.env);
      }
    }
  }

  lemma {:induction false} RunFromRounds(p: Player, run: seq<Event>)
    requires Good(p) && RunFrom(p, run) && TracksFromRounds(p)
    ensures TracksFromRounds(After(p, run))
    decreases |run|
  {
    if run != [] {
      StepKeeps(p, run[0]);
      StepFromRounds(p, run[0]);
      RunFromRounds(Step(p, run[0]), run[1..]);
    }
  }

  lemma ReachableFromRounds(p: Player)
    requires Reachable(p)
    ensures TracksFromRounds(p)
  {
    var run :| RunFrom(INITIAL, run) && After(INITIAL, run) == p;
    InitialGood(INITIAL);
    RunFromRounds(INITIAL, run);
  }

  /** In every reachable state of a live process every track has a live codec and is the outcome
      of some run of rounds, with its buffers handled first in, first out. */
  lemma TracksAreRight(p: Player, c: Codec)
    requires Reachable(p) && p.failure == Running && c in p.codecs
    ensures c.id in p.live && PT.RightAfterRounds(c.track)
  {
    ReachableGood(p);
    ReachableFromRounds(p);
    PT.FromRoundsIsRight(c.track);
  }

  // ----- Whole frames -----

  ghost predicate WholeEnv(env: Env, d: nat)
    requires d > 0
  {
    forall id: nat, k :: 0 <= k < |env.outputs(id)| ==> PF.WholeOutput(env.outputs(id)[k], d)
  }

  /** All codecs deliver whole frames of one size. */
  ghost predicate WholeEvents(run: seq<Event>, d: nat)
    requires d > 0
  {
    forall i :: 0 <= i < |run| && run[i].Deliver? ==> WholeEnv(run[i].env, d)
  }

  predicate WholeTracks(cs: seq<Codec>, d: nat)
    requires d > 0
  {
    forall k :: 0 <= k < |cs| ==> PF.Whole(cs[k].track, d)
  }

  lemma FedWhole(p: Player, env: Env, d: nat)
    requires EnvOk(env) && Ready(p) && d > 0 && WholeEnv(env, d) && WholeTracks(p.codecs, d)
    ensures WholeTracks(Fed(p, env).0, d)
  {
    var drained, fed := DrainAll(p.codecs, env), Fed(p, env).0;
    FeedAllOnlyInput(drained, p.samples, p.next);
    forall k | 0 <= k < |fed| ensures PF.Whole(fed[k].track, d) {
      var was := p.codecs[k];
      PF.DequeueWhole(was.track, env.outputs(was.id), d);
      assert fed[k] == drained[k].(avail := fed[k].avail, queued := fed[k].queued);
    }
  }

  lemma {:induction false} RenderWhole(cs: seq<Codec>, env: Env, start: int, d: nat)
    requires AllInv(cs) && d > 0 && WholeTracks(cs, d)
    ensures WholeTracks(RenderFrom(cs, env, start), d)
  {
    if cs != [] {
      PF.RenderAllWhole(cs[0].track, env.nowUs, start, env.plays(cs[0].id), d);
      RenderWhole(cs[1..], env, start, d);
    }
  }

  lemma NewTracksWhole(p: Player, env: Env, d: nat)
    requires Inv(p, 0) && p.phase == Unprepared && EnvOk(env) && d > 0
    ensures WholeTracks(OnPrepare(p, env).codecs, d)
  {
    if env.source.Some? {
      var source, cs := env.source.value, OnPrepare(p, env).codecs;
      assert p.codecs + NewCodecs(p.made, source, |source.keys|) == NewCodecs(p.made, source, |source.keys|);
      forall k | 0 <= k < |cs| ensures PF.Whole(cs[k].track, d) {
        ConfiguredOne(cs, p.made, source, env.config, k);
      }
    }
  }

  lemma WorkWhole(p: Player, env: Env, d: nat)
    requires Inv(p, 1) && EnvOk(env) && p.failure == Running
    requires d > 0 && WholeEnv(env, d) && WholeTracks(p.codecs, d)
    ensures var q := OnDoMoreStuff(p, env); q.failure == Running && WholeTracks(q.codecs, d)
  {
    var q := OnDoMoreStuff(p, env);
    FedWhole(p, env, d);
    RenderWhole(Fed(p, env).0, env, q.startUs, d);
    assert !Short(q.codecs) by {
      forall k | 0 <= k < |q.codecs| ensures !q.codecs[k].track.aborted {
        assert PF.Whole(q.codecs[k].track, d);
      }
    }
  }

  /** What a call can make of the codecs. */
  lemma CallCodecs(p: Player, m: Message, env: Env)
    ensures var cs := OnCall(p, m, env).codecs;
            cs == p.codecs || cs == [] || (p.phase == Unprepared && cs == OnPrepare(p, env).codecs)
  {
  }

  lemma CallWhole(p: Player, m: Message, env: Env, d: nat)
    requires Inv(p, 0) && EnvOk(env) && p.failure == Running && !m.Work? && d > 0 && WholeTracks(p.codecs, d)
    ensures var q := OnMessage(p, m, env); q.failure == Running && WholeTracks(q.codecs, d)
  {
    ControlKeeps(p, m, env);
    CallCodecs(p, m, env);
    if p.phase == Unprepared {
      NewTracksWhole(p, env, d);
    }
  }

  lemma StepWhole(p: Player, e: Event, d: nat)
    requires Inv(p, 0) && Enabled(p, e) && d > 0 && WholeTracks(p.codecs, d)
    requires e.Deliver? ==> WholeEnv(e.env, d)
    ensures Step(p, e).failure == Running && WholeTracks(Step(p, e).codecs, d)
  {
    if e.Deliver? {
      var m, p0 := p.pending[e.i], p.(pending := Without(p.pending, e.i));
      TimesWithout(p.pending, e.i, Work(p.generation));
      if m == Work(p.generation) {
        WorkWhole(p0, e.env, d);
      } else if !m.Work? {
        CallWhole(p0, m, e.env, d);
      }
    }
  }

  lemma {:induction false} RunWhole(p: Player, run: seq<Event>, d: nat)
    requires p.failure == Running && Good(p) && RunFrom(p, run)
    requires d > 0 && WholeTracks(p.codecs, d) && WholeEvents(run, d)
    ensures After(p, run).failure == Running && Good(After(p, run)) && WholeTracks(After(p, run).codecs, d)
    decreases |run|
  {
    if run != [] {
      StepWhole(p, run[0], d);
      StepKeeps(p, run[0]);
      assert forall i :: 0 <= i < |run[1..]| ==> run[1..][i] == run[i + 1];
      RunWhole(Step(p, run[0]), run[1..], d);
    }
  }

  /** Over every run in which buffers hold whole frames of one size, nothing ends the process. */
  lemma NothingFails(run: seq<Event>, d: nat)
    requires RunFrom(INITIAL, run) && d > 0 && WholeEvents(run, d)
    ensures After(INITIAL, run).failure == Running
  {
    InitialGood(INITIAL);
    RunWhole(INITIAL, run, d);
  }

  // ----- The player can get to the end -----

  /** Everything was fed, and everything that came out went back. */
  predicate AtEnd(p: Player) {
    && p.failure == Running && p.next == |p.samples|
    && forall k :: 0 <= k < |p.codecs| ==> p.codecs[k].track.queue == []
  }

  /** Every codec has room for all samples, nothing more comes out, and it is that late. */
  function EndEnv(now: int, room: seq<nat>): Env {
    Env(None, id => j => 0, now, id => room, id => [], id => [])
  }

  /** A time at which every waiting buffer of every track is late. */
  function AllLateTime(cs: seq<Codec>, start: int): (now: int)
    ensures forall k :: 0 <= k < |cs| ==> PT.AllLate(cs[k].track, now, start)
  {
    if cs == [] then 0
    else
      var first, rest := PT.LateTime(cs[0].track.queue, start), AllLateTime(cs[1..], start);
      if first < rest then rest else first
  }

  function Room(n: nat): (room: seq<nat>)
    ensures |room| == n
  {
    seq(n, i => i)
  }

  /** The tracks that a round without output leaves to be rendered, fed to the end. */
  lemma EndFed(p: Player, now: int)
    requires Ready(p)
    ensures EnvOk(EndEnv(now, Room(|p.samples|)))
    ensures var (fed, next) := Fed(p, EndEnv(now, Room(|p.samples|)));
            next == |p.samples| && forall k :: 0 <= k < |fed| ==> fed[k].track == p.codecs[k].track
  {
    var env := EndEnv(now, Room(|p.samples|));
    var drained := DrainAll(p.codecs, env);
    forall k | 0 <= k < |drained|
      ensures |drained[k].avail| >= |p.samples| && drained[k].track == p.codecs[k].track
    {
      assert drained[k] == DrainOne(p.codecs[k], env);
      assert env.outputs(p.codecs[k].id) == [];
    }
    SuppliedFeedsAll(drained, p.samples, p.next);
    FeedAllOnlyInput(drained, p.samples, p.next);
    var fed := Fed(p, env).0;
    forall k | 0 <= k < |fed| ensures fed[k].track == p.codecs[k].track {
      assert fed[k] == drained[k].(avail := fed[k].avail, queued := fed[k].queued);
    }
  }

  predicate LateTracks(cs: seq<Codec>, now: int, start: int) {
    forall k :: 0 <= k < |cs| ==> PT.AllLate(cs[k].track, now, start) && !cs[k].track.aborted
  }

  predicate Drained(cs: seq<Codec>) {
    forall k :: 0 <= k < |cs| ==> cs[k].track.queue == [] && !cs[k].track.aborted
  }

  /** Rendering tracks all of whose buffers are late empties their lists. */
  lemma {:induction false} RenderLate(cs: seq<Codec>, env: Env, start: int)
    requires AllInv(cs) && LateTracks(cs, env.nowUs, start)
    ensures Drained(RenderFrom(cs, env, start))
  {
    if cs != [] {
      PT.LateDrains(cs[0].track, env.nowUs, start, env.plays(cs[0].id));
      RenderLate(cs[1..], env, start);
      var c := RenderOne(cs[0], env, start);
      assert RenderFrom(cs, env, start) == [c] + RenderFrom(cs[1..], env, start);
    }
  }

  /** One round with enough buffers, late enough, takes a playing player to the end. */
  lemma LateRound(p: Player)
    requires Ready(p) && !Short(p.codecs) && p.failure == Running && p.startUs >= 0
    requires p.extractor && Ids(p.codecs) <= p.live
    ensures var env := EndEnv(AllLateTime(p.codecs, p.startUs), Room(|p.samples|));
            EnvOk(env) && AtEnd(OnDoMoreStuff(p, env))
  {
    var now := AllLateTime(p.codecs, p.startUs);
    var env := EndEnv(now, Room(|p.samples|));
    EndFed(p, now);
    var fed := Fed(p, env).0;
    RenderLate(fed, env, p.startUs);
    var q := OnDoMoreStuff(p, env);
    assert q.codecs == RenderFrom(fed, env, p.startUs);
    assert !Short(q.codecs);
  }

  /** The work message of a started player can be delivered. */
  lemma WorkAt(p: Player) returns (i: nat)
    requires Inv(p, 0) && p.phase == Started
    ensures i < |p.pending| && p.pending[i] == Work(p.generation)
  {
    assert Work(p.generation) in p.pending;
    i :| 0 <= i < |p.pending| && p.pending[i] == Work(p.generation);
  }

  /** The step leads to the end. */
  ghost predicate Ends(p: Player, e: Event) {
    Enabled(p, e) && AtEnd(Step(p, e))
  }

  lemma LateStep(p: Player) returns (e: Event)
    requires Good(p) && p.failure == Running && p.phase == Started && p.startUs >= 0
    ensures Ends(p, e)
  {
    var i := WorkAt(p);
    var p0 := p.(pending := Without(p.pending, i));
    LateRound(p0);
    e := Deliver(i, EndEnv(AllLateTime(p0.codecs, p0.startUs), Room(|p0.samples|)));
  }

  /** Whatever happened so far: a live player that has begun to play can get to the end in one
      round. */
  lemma OneRoundToEnd(p: Player)
    requires Reachable(p) && p.failure == Running && p.phase == Started && p.startUs >= 0
    ensures exists e :: Ends(p, e)
  {
    ReachableGood(p);
    var e := LateStep(p);
  }

  /** The first round of a started player that writes whole frames only. */
  lemma FirstStep(p: Player, d: nat) returns (e: Event)
    requires Good(p) && p.failure == Running && p.phase == Started && d > 0 && WholeTracks(p.codecs, d)
    ensures Enabled(p, e)
    ensures var q := Step(p, e); Good(q) && q.failure == Running && q.phase == Started && q.startUs >= 0
  {
    var i := WorkAt(p);
    var env := EndEnv(0, []);
    e := Deliver(i, env);
    StepWhole(p, e, d);
    StepKeeps(p, e);
  }

  /** Over every run in which buffers hold whole frames of one size, a started player can go on so
      that every sample is fed and every buffer that came out goes back. */
  lemma EveryRunCanEnd(run: seq<Event>, d: nat)
    requires RunFrom(INITIAL, run) && d > 0 && WholeEvents(run, d) && After(INITIAL, run).phase == Started
    ensures exists more, q :: Leads(After(INITIAL, run), more, q) && AtEnd(q)
  {
    InitialGood(INITIAL);
    RunWhole(INITIAL, run, d);
    var p := After(INITIAL, run);
    var e := FirstStep(p, d);
    var e1 := LateStep(Step(p, e));
    TwoSteps(p, e, e1);
  }

  lemma TwoSteps(p: Player, e: Event, e1: Event)
    requires Enabled(p, e) && Enabled(Step(p, e), e1)
    ensures Leads(p, [e, e1], Step(Step(p, e), e1))
  {
    var p1 := Step(p, e);
    var q := Step(p1, e1);
    assert Leads(q, [], q);
    assert [e1][1..] == [] && [e, e1][1..] == [e1];
    LeadsFirst(p1, [e1], q);
    LeadsFirst(p, [e, e1], q);
  }
}
