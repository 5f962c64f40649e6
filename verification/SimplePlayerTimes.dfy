/**
 What preparing the simple player (cmds/stagefright/SimplePlayer.cpp) loads, and when its playing
 time begins.
 */
module SimplePlayerTimes {
  import opened CodecInput
  import opened PlayerInput
  import opened SimplePlayer
  import opened Wrappers
  import PT = PlayerTrack

  // ----- Preparing -----

  /** A codec that was just started: it has its configuration data, in the buffers it handed out for
      it, and nothing else yet. */
  predicate JustStarted(c: Codec, source: Source, buffers: nat -> nat) {
    && |c.granted| == |c.csd| && (forall j :: 0 <= j < |c.csd| ==> c.granted[j] == buffers(j))
    && c.csd == source.csd(c.key) && Contents(c.queued) == Configs(source.csd(c.key))
    && Indices(c.queued) == c.granted && c.avail == [] && c.track == PT.FRESH
  }

  /** The player holds the file from its beginning, with one new codec per selected track, in order. */
  ghost predicate Loaded(made: nat, q: Player, source: Source, config: nat -> nat -> nat) {
    && q.extractor && q.samples == source.samples && q.next == 0 && Keys(q.codecs) == source.keys
    && (forall key :: key in q.csd <==> key in source.keys)
    && (forall key :: key in q.csd ==> q.csd[key] == source.csd(key))
    && q.made == made + |source.keys|
    && (forall k :: 0 <= k < |q.codecs| ==>
          q.codecs[k].id == made + k && JustStarted(q.codecs[k], source, config(made + k)))
  }

  /** Preparing, whether by itself or on the way to playing, loads the file. */
  lemma PrepareLoads(p: Player, i: nat, env: Env)
    requires Reachable(p) && Enabled(p, Deliver(i, env)) && (p.pending[i].Prepare? || p.pending[i].Start?)
    requires p.phase == Unprepared && env.source.Some?
    ensures Loaded(p.made, Step(p, Deliver(i, env)), env.source.value, env.config)
  {
    ReachableGood(p);
    CallLoads(p.(pending := Without(p.pending, i)), p.pending[i], env);
    StepOfCall(p, i, env);
  }

  lemma CallLoads(p: Player, m: Message, env: Env)
    requires (m.Prepare? || m.Start?) && p.phase == Unprepared && env.source.Some? && p.codecs == []
    ensures Loaded(p.made, OnCall(p, m, env), env.source.value, env.config)
  {
    CodecsLoaded(p, env);
    PreparedPlayer(p, m, env);
  }

  lemma StepOfCall(p: Player, i: nat, env: Env)
    requires Enabled(p, Deliver(i, env)) && !p.pending[i].Work?
    ensures var q, r := Step(p, Deliver(i, env)), OnCall(p.(pending := Without(p.pending, i)), p.pending[i], env);
            q == r.(replies := q.replies)
  {
  }

  lemma PreparedPlayer(p: Player, m: Message, env: Env)
    requires (m.Prepare? || m.Start?) && p.phase == Unprepared && env.source.Some?
    ensures var q, source := OnCall(p, m, env), env.source.value;
            && q.extractor && q.samples == source.samples && q.next == 0
            && q.codecs == OnPrepare(p, env).codecs && q.csd == CsdOf(source) && q.made == p.made + |source.keys|
  {
  }

  lemma CodecsLoaded(p: Player, env: Env)
    requires p.phase == Unprepared && env.source.Some? && p.codecs == []
    ensures var source, cs := env.source.value, OnPrepare(p, env).codecs;
            && Keys(cs) == source.keys
            && forall k :: 0 <= k < |cs| ==> cs[k].id == p.made + k && JustStarted(cs[k], source, env.config(p.made + k))
  {
    var source, cs := env.source.value, OnPrepare(p, env).codecs;
    var created := NewCodecs(p.made, source, |source.keys|);
    assert p.codecs + created == created;
    forall k | 0 <= k < |cs|
      ensures cs[k].id == p.made + k && cs[k].key == source.keys[k]
      ensures JustStarted(cs[k], source, env.config(p.made + k))
    {
      ConfiguredOne(cs, p.made, source, env.config, k);
      NothingButConfig(cs[k]);
    }
    assert Keys(cs) == source.keys;
  }

  lemma NothingButConfig(c: Codec)
    requires InputRight(c, []) && c.avail == []
    ensures Contents(c.queued) == Configs(c.csd) && Indices(c.queued) == c.granted
  {
    assert Configs(c.csd) + [] == Configs(c.csd) && Indices(c.queued) + [] == Indices(c.queued);
  }

  // ----- The playing time -----

  /** A second of lead, in microseconds. */
  const LEAD_US := 1000000

  /** How a delivery changes the start of the playing time: starting and resetting forget it, the
      first round of work sets it a second ahead, and nothing else touches it. */
  lemma StartTimeChanges(p: Player, i: nat, env: Env)
    requires Reachable(p) && Enabled(p, Deliver(i, env))
    ensures var m, t := p.pending[i], Step(p, Deliver(i, env)).startUs;
            && (m == Work(p.generation) ==> t == if p.startUs < 0 then env.nowUs + LEAD_US else p.startUs)
            && (m.Start? && AnswerTo(p, m, env) == Ok ==> t == -1)
            && (m.Reset? && p.extractor ==> t == -1)
            && (m != Work(p.generation) && !(m.Start? && AnswerTo(p, m, env) == Ok) && !(m.Reset? && p.extractor)
                ==> t == p.startUs)
  {
    ReachableGood(p);
    var m, p0 := p.pending[i], p.(pending := Without(p.pending, i));
    TimesWithout(p.pending, i, Work(p.generation));
    if !m.Work? {
      CallKeeps(p0, m, env);
      if p0.phase == Unprepared {
        OnPrepareKeeps(p0, env);
      }
    }
  }

  /** Between two starts: no start or reset is delivered, and the clock is not negative. */
  ghost predicate Undisturbed(p: Player, run: seq<Event>)
    requires RunFrom(p, run)
    decreases |run|
  {
    run == [] || (
      && (run[0].Deliver? ==>
            && !p.pending[run[0].i].Start? && !p.pending[run[0].i].Reset? && run[0].env.nowUs >= 0)
      && Undisturbed(Step(p, run[0]), run[1..]))
  }

  /** The time of the first round of work in a run. */
  ghost function FirstRound(p: Player, run: seq<Event>): Option<int>
    requires RunFrom(p, run)
    decreases |run|
  {
    if run == [] then None
    else if run[0].Deliver? && p.pending[run[0].i] == Work(p.generation) then Some(run[0].env.nowUs)
    else FirstRound(Step(p, run[0]), run[1..])
  }

  lemma ReachableStep(p: Player, e: Event)
    requires Reachable(p) && Enabled(p, e)
    ensures Reachable(Step(p, e))
  {
    var run :| RunFrom(INITIAL, run) && After(INITIAL, run) == p;
    AfterOneMore(INITIAL, run, e);
    assert RunFrom(INITIAL, run + [e]);
  }

  lemma {:induction false} AfterOneMore(p: Player, run: seq<Event>, e: Event)
    requires RunFrom(p, run) && Enabled(After(p, run), e)
    ensures RunFrom(p, run + [e]) && After(p, run + [e]) == Step(After(p, run), e)
    decreases |run|
  {
    if run == [] {
      assert [] + [e] == [e] && [e][1..] == [];
    } else {
      assert (run + [e])[1..] == run[1..] + [e];
      AfterOneMore(Step(p, run[0]), run[1..], e);
    }
  }

  lemma {:induction false} StartStays(p: Player, run: seq<Event>)
    requires Reachable(p) && RunFrom(p, run) && Undisturbed(p, run) && p.startUs >= 0
    ensures After(p, run).startUs == p.startUs
    decreases |run|
  {
    if run != [] {
      if run[0].Deliver? {
        StartTimeChanges(p, run[0].i, run[0].env);
      }
      ReachableStep(p, run[0]);
      StartStays(Step(p, run[0]), run[1..]);
    }
  }

  /** Between two starts the playing time begins exactly one second after the first round of work,
      and is not set before it. */
  lemma {:induction false} LeadTime(p: Player, run: seq<Event>)
    requires Reachable(p) && RunFrom(p, run) && Undisturbed(p, run) && p.startUs == -1
    ensures var first := FirstRound(p, run);
            After(p, run).startUs == if first.None? then -1 else first.value + LEAD_US
    decreases |run|
  {
    if run != [] {
      var q := Step(p, run[0]);
      ReachableStep(p, run[0]);
      if run[0].Deliver? {
        StartTimeChanges(p, run[0].i, run[0].env);
      }
      if run[0].Deliver? && p.pending[run[0].i] == Work(p.generation) {
        StartStays(q, run[1..]);
      } else {
        LeadTime(q, run[1..]);
      }
    }
  }
}
