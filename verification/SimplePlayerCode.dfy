/**
 The handler object of cmds/stagefright/SimplePlayer.cpp.
 */
module SimplePlayerCode {
  import opened CodecInput
  import opened PlayerInput
  import opened SimplePlayer
  import opened Wrappers
  import PT = PlayerTrack

  /** One more track of the last loop. */
  lemma RenderNext(cs: seq<Codec>, i: nat, env: Env, start: int, done: seq<Codec>)
    requires i < |cs| && AllInv(cs)
    ensures var c := RenderOne(cs[i], env, start);
            done + RenderFrom(cs[i..], env, start)
            == (done + [c]) + if c.track.aborted then cs[i + 1..] else RenderFrom(cs[i + 1..], env, start)
  {
    assert cs[i..][0] == cs[i] && cs[i..][1..] == cs[i + 1..];
  }

  /** The handler object.  Each method is the function of the same name; a failing CHECK sets
      `failure`, after which the process is over. */
  class Handler {
    var phase: Phase
    var generation: nat
    var pending: seq<Message>
    var path: bool
    var surface: Option<nat>
    var extractor: bool
    var samples: seq<Sample>
    var csd: map<nat, seq<seq<int>>>
    var next: nat
    var codecs: seq<Codec>
    var startUs: int
    var made: nat
    var live: set<nat>
    var replies: seq<Reply>
    var failure: Failure

    ghost function View(): Player
      reads this
    {
      Player(phase, generation, pending, path, surface, extractor, samples, csd, next, codecs, startUs, made,
             live, replies, failure)
    }

    constructor ()
      ensures View() == INITIAL
    {
      phase, generation, pending, path, surface := Uninitialized, 0, [], false, None;
      extractor, samples, csd, next, replies := false, [], map[], 0, [];
      codecs, startUs, made, live, failure := [], -1, 0, {}, Running;
    }

    /** setDataSource, setSurface, prepare, start, stop and reset post a message. */
    method Post(m: Message)
      modifies this`pending
      ensures View() == old(View()).(pending := old(pending) + [m])
    {
      pending := pending + [m];
    }

    method PostReply(m: Message, answer: Answer)
      modifies this`replies
      ensures View() == Replied(old(View()), m, answer)
    {
      if failure == Running {
        replies := replies + [Reply(m, answer)];
      }
    }

    method Prepare(env: Env) returns (err: Answer)
      modifies this
      ensures View() == OnPrepare(old(View()), env)
      ensures old(phase) == Unprepared ==> err == if env.source.Some? then Ok else OpenFailed
    {
      if phase != Unprepared {
        failure := StateCheck;
        return Unassigned;
      }
      if env.source.None? {
        extractor := false;
        return OpenFailed;
      }
      OpenSource(env.source.value);
      StartCodecs(env);
      phase := Stopped;
      return Ok;
    }

    /** The extractor opens the file, and there is a codec for every selected track. */
    method OpenSource(source: Source)
      modifies this`extractor, this`samples, this`csd, this`next, this`codecs, this`live, this`made
      ensures extractor && samples == source.samples && csd == CsdOf(source) && next == 0 && made == old(made) + |source.keys|
      ensures codecs == old(codecs) + NewCodecs(old(made), source, |source.keys|)
      ensures live == old(live) + Ids(NewCodecs(old(made), source, |source.keys|))
    {
      extractor := true;
      samples, csd, next := source.samples, CsdOf(source), 0;
      AddCodecs(source);
    }

    /** The loop that creates a codec for every selected track. */
    method AddCodecs(source: Source)
      modifies this`codecs, this`live, this`made
      ensures codecs == old(codecs) + NewCodecs(old(made), source, |source.keys|)
      ensures live == old(live) + Ids(NewCodecs(old(made), source, |source.keys|))
      ensures made == old(made) + |source.keys|
    {
      var k := 0;
      while k < |source.keys|
        invariant 0 <= k <= |source.keys|
        invariant made == old(made) + k
        invariant codecs == old(codecs) + NewCodecs(old(made), source, k)
        invariant live == old(live) + Ids(NewCodecs(old(made), source, k))
      {
        var c := NewCodec(made, source.keys[k], source.csd(source.keys[k]));
        ghost var were := NewCodecs(old(made), source, k);
        assert NewCodecs(old(made), source, k + 1) == were + [c];
        assert Ids(were + [c]) == Ids(were) + {made};
        codecs := codecs + [c];
        live := live + {made};
        made := made + 1;
        k := k + 1;
      }
    }

    /** The loop that starts the codecs and gives them their configuration data. */
    method StartCodecs(env: Env)
      modifies this`codecs
      ensures codecs == ConfigureAll(old(codecs), env.config)
    {
      var i := 0;
      while i < |codecs|
        invariant 0 <= i <= |codecs| == |old(codecs)|
        invariant forall k :: 0 <= k < i ==> codecs[k] == ConfigureAll(old(codecs), env.config)[k]
        invariant forall k :: i <= k < |codecs| ==> codecs[k] == old(codecs)[k]
      {
        var c := QueueConfig(codecs[i], env.config(codecs[i].id));
        codecs := codecs[i := c];
        i := i + 1;
      }
    }

    method Start()
      modifies this
      ensures View() == OnStart(old(View()))
    {
      if phase != Stopped {
        failure := StateCheck;
        return;
      }
      startUs := -1;
      generation := generation + 1;
      Post(Work(generation));
      phase := Started;
    }

    method Stop()
      modifies this
      ensures View() == OnStop(old(View()))
    {
      if phase != Started {
        failure := StateCheck;
        return;
      }
      generation := generation + 1;
      phase := Stopped;
    }

    method Reset()
      modifies this
      ensures View() == OnReset(old(View()))
    {
      if phase != Stopped {
        failure := StateCheck;
        return;
      }
      if !(Ids(codecs) <= live) {
        failure := DeadObject;
        return;
      }
      ReleaseCodecs();
      ClearFields();
      CloseSource();
      phase := Uninitialized;
    }

    /** Nothing is left of the file. */
    method CloseSource()
      modifies this`extractor, this`samples, this`csd, this`next
      ensures View() == old(View()).(extractor := false, samples := [], csd := map[], next := 0)
    {
      extractor, samples, csd, next := false, [], map[], 0;
    }

    method ClearFields()
      modifies this`startUs, this`codecs, this`surface, this`path
      ensures View() == old(View()).(startUs := -1, codecs := [], surface := None, path := false)
    {
      startUs, codecs, surface, path := -1, [], None, false;
    }

    /** The loop that releases the codecs. */
    method ReleaseCodecs()
      modifies this`live
      ensures View() == old(View()).(live := old(live) - Ids(codecs))
    {
      var k := 0;
      while k < |codecs|
        invariant 0 <= k <= |codecs|
        invariant live == old(live) - Ids(codecs[..k])
      {
        assert Ids(codecs[..k + 1]) == Ids(codecs[..k]) + {codecs[k].id} by {
          assert codecs[..k + 1] == codecs[..k] + [codecs[k]];
        }
        live := live - {codecs[k].id};
        k := k + 1;
      }
      assert codecs[..k] == codecs;
    }

    method DoMoreStuff(env: Env)
      requires EnvOk(env) && Ready(View())
      modifies this
      ensures View() == OnDoMoreStuff(old(View()), env)
    {
      if !extractor || !(Ids(codecs) <= live) {
        failure := DeadObject;
        return;
      }
      var fed := DrainAndFeed(env);
      assert View() == old(View()).(next := next);
      if startUs < 0 {
        startUs := env.nowUs + 1000000;
      }
      RenderTracks(fed, env);
    }

    method RenderTracks(fed: seq<Codec>, env: Env)
      requires AllInv(fed)
      modifies this`codecs, this`failure
      ensures View() == Rendered(old(View()), fed, env)
    {
      var cs, short := Render(fed, env, startUs);
      codecs := cs;
      if short {
        failure := ShortWrite;
      }
    }

    /** The first loop over the tracks and the loop that feeds samples. */
    method DrainAndFeed(env: Env) returns (fed: seq<Codec>)
      requires EnvOk(env) && Ready(View())
      modifies this`next
      ensures (fed, next) == Fed(old(View()), env)
    {
      var drained := Drain(codecs, env);
      var n;
      fed, n := FeedSamples(drained, samples, next);
      next := n;
    }

    /** The first loop over the tracks. */
    method Drain(cs: seq<Codec>, env: Env) returns (r: seq<Codec>)
      requires EnvOk(env)
      ensures r == DrainAll(cs, env)
    {
      r := [];
      for i := 0 to |cs|
        invariant |r| == i
        invariant forall k :: 0 <= k < i ==> r[k] == DrainOne(cs[k], env)
      {
        var c := Grant(cs[i], env.inputs(cs[i].id));
        var t := PT.DequeueOutputs(c.track, env.outputs(c.id));
        r := r + [c.(track := t)];
      }
      assert r == DrainAll(cs, env);
    }

    /** The last loop over the tracks: it ends at a track whose CHECK fails. */
    method Render(cs: seq<Codec>, env: Env, start: int) returns (r: seq<Codec>, short: bool)
      requires AllInv(cs)
      ensures r == RenderFrom(cs, env, start)
      ensures short <==> Short(r)
    {
      var done: seq<Codec> := [];
      var i := 0;
      while i < |cs|
        invariant 0 <= i <= |cs| && |done| == i && !Short(done)
        invariant RenderFrom(cs, env, start) == done + RenderFrom(cs[i..], env, start)
      {
        RenderNext(cs, i, env, start, done);
        var c := cs[i];
        var t := PT.RenderOutputs(c.track, env.nowUs, start, env.plays(c.id));
        done := done + [c.(track := t)];
        i := i + 1;
        if t.aborted {
          assert (done + cs[i..])[i - 1].track.aborted;
          return done + cs[i..], true;
        }
      }
      assert RenderFrom(cs[i..], env, start) == [];
      return done, false;
    }

    method OnMessageReceived(i: nat, env: Env)
      requires Enabled(View(), Deliver(i, env))
      modifies this
      ensures View() == Step(old(View()), Deliver(i, env))
    {
      var m := pending[i];
      pending := Without(pending, i);
      if m.Work? {
        if m.generation == generation {
          DoMoreStuff(env);
          if failure == Running {
            Post(m);
          }
        }
      } else {
        HandleCall(m, env);
      }
    }

    /** The cases of the client calls. */
    method HandleCall(m: Message, env: Env)
      requires !m.Work? && failure == Running
      modifies this
      ensures View() == Replied(OnCall(old(View()), m, env), m, AnswerTo(old(View()), m, env))
    {
      var err := Ok;
      match m {
        case SetDataSource =>
          if phase != Uninitialized {
            err := InvalidOperation;
          } else {
            path, phase := true, Unprepared;
            err := Unassigned;
          }
        case SetSurface(s) =>
          if phase != Unprepared {
            err := InvalidOperation;
          } else {
            surface := s;
          }
        case Prepare =>
          if phase != Unprepared {
            err := InvalidOperation;
          } else {
            err := Prepare(env);
          }
        case Start =>
          if phase == Unprepared {
            err := Prepare(env);
          }
          if err == Ok {
            if phase != Stopped {
              err := InvalidOperation;
            } else {
              Start();
            }
          }
        case Stop =>
          if phase != Started {
            err := InvalidOperation;
          } else {
            Stop();
          }
        case Reset =>
          if phase == Started {
            Stop();
          }
          if phase == Stopped {
            Reset();
          }
      }
      PostReply(m, err);
    }
  }
}
