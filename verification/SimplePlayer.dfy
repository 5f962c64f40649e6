/**
 The message-driven life of the simple player (cmds/stagefright/SimplePlayer.cpp): client
 calls and self-reposted work messages are delivered one at a time, in any order.
 */
module SimplePlayer {
  import opened CodecInput
  import opened PlayerInput
  import opened Wrappers
  import PT = PlayerTrack

  datatype Phase = Uninitialized | Unprepared | Stopped | Started

  datatype Message =
    | SetDataSource | SetSurface(surface: Option<nat>) | Prepare | Start | Stop | Reset
    | Work(generation: nat)

  /** The status in a reply; `Unassigned` is a variable that was never set. */
  datatype Answer = Ok | InvalidOperation | OpenFailed | Unassigned

  datatype Reply = Reply(message: Message, answer: Answer)

  /** Why the process ended: a CHECK on mState, a call on an object that is gone, or the CHECK
      on the number of bytes written. */
  datatype Failure = Running | StateCheck | DeadObject | ShortWrite

  datatype Player = Player(
    phase: Phase,
    generation: nat,             // mDoMoreStuffGeneration
    pending: seq<Message>,       // messages posted and not delivered yet
    path: bool,                  // mPath is set
    surface: Option<nat>,        // mSurface
    extractor: bool,             // mExtractor is set
    samples: seq<Sample>,        // the samples of the selected tracks in the extractor's file
    csd: map<nat, seq<seq<int>>>, // the configuration data of the selected tracks in that file
    next: nat,                   // how many samples the extractor has passed
    codecs: seq<Codec>,
    startUs: int,                // mStartTimeRealUs
    made: nat,                   // number of codecs created so far
    live: set<nat>,              // codecs created and not released
    replies: seq<Reply>,         // replies posted so far
    failure: Failure)

  const INITIAL :=
    Player(Uninitialized, 0, [], false, None, false, [], map[], 0, [], -1, 0, {}, [], Running)

  /** A file: its selected tracks, their configuration data, and their samples. */
  datatype Source = Source(keys: seq<nat>, csd: nat -> seq<seq<int>>, samples: seq<Sample>)

  /** What the outside answers while a message is handled: the file, if it opens, the buffers for
      configuration data, the time, and what each codec and audio track does. */
  datatype Env = Env(source: Option<Source>, config: nat -> nat -> nat, nowUs: int,
                     inputs: nat -> seq<nat>, outputs: nat -> seq<PT.Output>, plays: nat -> seq<nat>)

  predicate SourceOk(source: Source) {
    DistinctKeys(source.keys) && Selected(source.samples, source.keys)
  }

  ghost predicate EnvOk(env: Env) {
    && (env.source.Some? ==> SourceOk(env.source.value))
    && forall id: nat, k :: 0 <= k < |env.outputs(id)| ==> PT.OutputOk(env.outputs(id)[k])
  }

  datatype Event = Call(m: Message) | Deliver(i: nat, env: Env)

  // ----- Handlers -----

  function NewCodecs(from: nat, source: Source, n: nat): (cs: seq<Codec>)
    requires n <= |source.keys|
    ensures |cs| == n
  {
    seq(n, k requires 0 <= k < n => NewCodec(from + k, source.keys[k], source.csd(source.keys[k])))
  }

  /** What the file says about its selected tracks. */
  function CsdOf(source: Source): map<nat, seq<seq<int>>> {
    map key | key in source.keys :: source.csd(key)
  }

  function ConfigureAll(cs: seq<Codec>, config: nat -> nat -> nat): (r: seq<Codec>)
    ensures |r| == |cs|
  {
    seq(|cs|, k requires 0 <= k < |cs| => Configure(cs[k], config(cs[k].id), |cs[k].csd|))
  }

  function Ids(cs: seq<Codec>): set<nat> {
    set c | c in cs :: c.id
  }

  function OnPrepare(p: Player, env: Env): Player {
    if p.phase != Unprepared then p.(failure := StateCheck)
    else if env.source.None? then p.(extractor := false)
    else
      var source := env.source.value;
      var n := |source.keys|;
      var cs := NewCodecs(p.made, source, n);
      p.(extractor := true, samples := source.samples, csd := CsdOf(source), next := 0,
         codecs := ConfigureAll(p.codecs + cs, env.config), made := p.made + n,
         live := p.live + Ids(cs), phase := Stopped)
  }

  function OnStart(p: Player): Player {
    if p.phase != Stopped then p.(failure := StateCheck)
    else p.(startUs := -1, generation := p.generation + 1,
            pending := p.pending + [Work(p.generation + 1)], phase := Started)
  }

  function OnStop(p: Player): Player {
    if p.phase != Started then p.(failure := StateCheck)
    else p.(generation := p.generation + 1, phase := Stopped)
  }

  function OnReset(p: Player): Player {
    if p.phase != Stopped then p.(failure := StateCheck)
    else if !(Ids(p.codecs) <= p.live) then p.(failure := DeadObject)
    else p.(live := p.live - Ids(p.codecs), startUs := -1, codecs := [], extractor := false,
            samples := [], csd := map[], next := 0, surface := None, path := false, phase := Uninitialized)
  }

  predicate AllInv(cs: seq<Codec>) {
    forall k :: 0 <= k < |cs| ==> PT.Inv(cs[k].track)
  }

  /** The first loop over the tracks takes input buffers and output buffers from a codec. */
  ghost function DrainOne(c: Codec, env: Env): Codec
    requires EnvOk(env)
  {
    Grant(c, env.inputs(c.id)).(track := PT.DequeueAll(c.track, env.outputs(c.id)))
  }

  ghost function DrainAll(cs: seq<Codec>, env: Env): (r: seq<Codec>)
    requires EnvOk(env)
    ensures |r| == |cs| && Keys(r) == Keys(cs)
  {
    seq(|cs|, k requires 0 <= k < |cs| => DrainOne(cs[k], env))
  }

  ghost function RenderOne(c: Codec, env: Env, start: int): (r: Codec)
    requires PT.Inv(c.track)
  {
    c.(track := PT.RenderAll(c.track, env.nowUs, start, env.plays(c.id)))
  }

  /** The last loop over the tracks; it ends with the process when the CHECK fails. */
  ghost function RenderFrom(cs: seq<Codec>, env: Env, start: int): (r: seq<Codec>)
    requires AllInv(cs)
    ensures |r| == |cs|
  {
    if cs == [] then []
    else
      var c := RenderOne(cs[0], env, start);
      [c] + if c.track.aborted then cs[1..] else RenderFrom(cs[1..], env, start)
  }

  /** Some track's audio output took fewer bytes than it was given. */
  predicate Short(cs: seq<Codec>) {
    exists k :: 0 <= k < |cs| && cs[k].track.aborted
  }

  /** What a round of work relies on. */
  predicate Ready(p: Player) {
    AllInv(p.codecs) && p.next <= |p.samples| && Selected(p.samples, Keys(p.codecs))
  }

  lemma DrainAllInv(cs: seq<Codec>, env: Env)
    requires EnvOk(env) && AllInv(cs)
    ensures AllInv(DrainAll(cs, env))
  {
    forall k | 0 <= k < |cs| ensures PT.Inv(DrainAll(cs, env)[k].track) {
      PT.DequeueAllKeeps(cs[k].track, env.outputs(cs[k].id));
    }
  }

  /** The codecs after draining and feeding, and how many samples the extractor has passed. */
  ghost function Fed(p: Player, env: Env): (r: (seq<Codec>, nat))
    requires EnvOk(env) && Ready(p)
    ensures |r.0| == |p.codecs| && AllInv(r.0) && p.next <= r.1 <= |p.samples|
  {
    var drained := DrainAll(p.codecs, env);
    DrainAllInv(p.codecs, env);
    FeedAllOnlyInput(drained, p.samples, p.next);
    FeedAll(drained, p.samples, p.next)
  }

  ghost function OnDoMoreStuff(p: Player, env: Env): Player
    requires EnvOk(env) && Ready(p)
  {
    if !p.extractor || !(Ids(p.codecs) <= p.live) then p.(failure := DeadObject)
    else
      var (fed, next) := Fed(p, env);
      var start := if p.startUs < 0 then env.nowUs + 1000000 else p.startUs;
      Rendered(p.(next := next, startUs := start), fed, env)
  }

  /** The last part of a round: the drained and fed codecs are rendered. */
  ghost function Rendered(p: Player, fed: seq<Codec>, env: Env): Player
    requires AllInv(fed)
  {
    var cs := RenderFrom(fed, env, p.startUs);
    p.(codecs := cs, failure := if Short(cs) then ShortWrite else p.failure)
  }

  /** What the caller is told. */
  function AnswerTo(p: Player, m: Message, env: Env): Answer {
    match m
    case SetDataSource => if p.phase != Uninitialized then InvalidOperation else Unassigned
    case SetSurface(_) => if p.phase != Unprepared then InvalidOperation else Ok
    case Prepare =>
      if p.phase != Unprepared then InvalidOperation else if env.source.None? then OpenFailed else Ok
    case Start =>
      if p.phase == Unprepared && env.source.None? then OpenFailed
      else if p.phase == Unprepared || p.phase == Stopped then Ok
      else InvalidOperation
    case Stop => if p.phase != Started then InvalidOperation else Ok
    case _ => Ok
  }

  /** A client call that is delivered. */
  function OnCall(p: Player, m: Message, env: Env): Player {
    match m
    case SetDataSource => if p.phase != Uninitialized then p else p.(path := true, phase := Unprepared)
    case SetSurface(surface) => if p.phase != Unprepared then p else p.(surface := surface)
    case Prepare => if p.phase != Unprepared then p else OnPrepare(p, env)
    case Start =>
      var p1 := if p.phase == Unprepared then OnPrepare(p, env) else p;
      if p1.phase == Stopped then OnStart(p1) else p1
    case Stop => if p.phase != Started then p else OnStop(p)
    case Reset =>
      var p1 := if p.phase == Started then OnStop(p) else p;
      if p1.phase == Stopped then OnReset(p1) else p1
    case Work(_) => p
  }

  /** The reply to a call, unless the process ended. */
  function Replied(p: Player, m: Message, answer: Answer): Player {
    if p.failure != Running then p else p.(replies := p.replies + [Reply(m, answer)])
  }

  ghost function OnMessage(p: Player, m: Message, env: Env): Player
    requires EnvOk(env) && Ready(p)
  {
    if !m.Work? then Replied(OnCall(p, m, env), m, AnswerTo(p, m, env))
    else if m.generation != p.generation then p
    else
      var p1 := OnDoMoreStuff(p, env);
      if p1.failure == Running then p1.(pending := p1.pending + [m]) else p1
  }

  function Without(ms: seq<Message>, i: nat): seq<Message>
    requires i < |ms|
  {
    ms[..i] + ms[i + 1..]
  }

  ghost predicate Enabled(p: Player, e: Event) {
    && p.failure == Running && Ready(p)
    && match e
       case Call(m) => !m.Work?
       case Deliver(i, env) => i < |p.pending| && EnvOk(env)
  }

  ghost function Step(p: Player, e: Event): Player
    requires Enabled(p, e)
  {
    match e
    case Call(m) => p.(pending := p.pending + [m])
    case Deliver(i, env) =>
      OnMessage(p.(pending := Without(p.pending, i)), p.pending[i], env)
  }

  ghost predicate RunFrom(p: Player, run: seq<Event>)
    decreases |run|
  {
    run == [] || (Enabled(p, run[0]) && RunFrom(Step(p, run[0]), run[1..]))
  }

  ghost function After(p: Player, run: seq<Event>): Player
    requires RunFrom(p, run)
    decreases |run|
  {
    if run == [] then p else After(Step(p, run[0]), run[1..])
  }

  // ----- The invariant -----

  function Times(ms: seq<Message>, m: Message): nat {
    multiset(ms)[m]
  }

  /** One pending work message is current exactly while the player is started; the others are
      older. */
  ghost predicate WorkOk(p: Player, inHand: nat) {
    && Times(p.pending, Work(p.generation)) + inHand == (if p.phase == Started then 1 else 0)
    && forall g: nat :: Work(g) in p.pending ==> g <= p.generation
  }

  ghost predicate ObjectsOk(p: Player) {
    && (p.extractor <==> p.phase == Stopped || p.phase == Started)
    && (p.path <==> p.phase != Uninitialized)
    && (!p.extractor ==> p.codecs == [] && p.samples == [])
    && p.live == Ids(p.codecs)
  }

  /** The codecs have the configuration data of their own tracks. */
  predicate CsdRight(cs: seq<Codec>, csd: map<nat, seq<seq<int>>>) {
    forall k :: 0 <= k < |cs| ==> cs[k].key in csd && cs[k].csd == csd[cs[k].key]
  }

  predicate InputsOk(p: Player) {
    Ready(p) && InputsRight(p.codecs, p.samples[..p.next]) && CsdRight(p.codecs, p.csd)
  }

  /** `inHand` counts the current work message that is being handled. */
  ghost predicate Inv(p: Player, inHand: nat) {
    && WorkOk(p, inHand)
    && ObjectsOk(p)
    && InputsOk(p)
    && (p.failure == Running ==> !Short(p.codecs))
    && (p.failure == Running || p.failure == ShortWrite)
  }

  lemma TimesAppend(ms: seq<Message>, m: Message, x: Message)
    ensures Times(ms + [m], x) == Times(ms, x) + (if x == m then 1 else 0)
  {
  }

  lemma TimesWithout(ms: seq<Message>, i: nat, x: Message)
    requires i < |ms|
    ensures Times(ms, x) == Times(Without(ms, i), x) + (if x == ms[i] then 1 else 0)
  {
    assert ms == ms[..i] + [ms[i]] + ms[i + 1..];
  }

  lemma OlderOnly(p: Player, g: nat)
    requires WorkOk(p, 0) && g > p.generation
    ensures Times(p.pending, Work(g)) == 0
  {
    assert Work(g) !in p.pending;
  }

  // ----- New codecs -----

  lemma ConfiguredOne(cs: seq<Codec>, from: nat, source: Source, config: nat -> nat -> nat, k: nat)
    requires cs == ConfigureAll(NewCodecs(from, source, |source.keys|), config) && k < |source.keys|
    ensures cs[k].id == from + k && cs[k].key == source.keys[k] && cs[k].track == PT.FRESH
    ensures InputRight(cs[k], []) && cs[k].csd == source.csd(cs[k].key) && cs[k].avail == []
    ensures |cs[k].granted| == |cs[k].csd| && forall j :: 0 <= j < |cs[k].csd| ==> cs[k].granted[j] == config(from + k)(j)
  {
    var key := source.keys[k];
    ConfigureRight(NewCodec(from + k, key, source.csd(key)), config(from + k), |source.csd(key)|);
    ConfiguredRight(from + k, key, source.csd(key), config(from + k));
  }

  lemma NewCodecsOk(cs: seq<Codec>, from: nat, source: Source, config: nat -> nat -> nat)
    requires cs == ConfigureAll(NewCodecs(from, source, |source.keys|), config) && SourceOk(source)
    ensures AllInv(cs) && Selected(source.samples, Keys(cs)) && InputsRight(cs, []) && !Short(cs)
    ensures Ids(cs) == Ids(NewCodecs(from, source, |source.keys|)) && CsdRight(cs, CsdOf(source))
  {
    forall k | 0 <= k < |cs|
      ensures cs[k].id == from + k && cs[k].key == source.keys[k] && cs[k].track == PT.FRESH
      ensures InputRight(cs[k], []) && cs[k].csd == source.csd(cs[k].key)
    {
      ConfiguredOne(cs, from, source, config, k);
    }
    assert Keys(cs) == source.keys;
    PT.FreshInv();
    NewIds(cs, from, source);
  }

  lemma NewIds(cs: seq<Codec>, from: nat, source: Source)
    requires |cs| == |source.keys| && forall k :: 0 <= k < |cs| ==> cs[k].id == from + k
    ensures Ids(cs) == Ids(NewCodecs(from, source, |source.keys|))
  {
    SameIds(NewCodecs(from, source, |source.keys|), cs);
  }

  lemma OnPrepareKeeps(p: Player, env: Env)
    requires Inv(p, 0) && p.phase == Unprepared && EnvOk(env)
    ensures Inv(OnPrepare(p, env), 0)
    ensures OnPrepare(p, env).failure == p.failure
    ensures OnPrepare(p, env).phase == if env.source.Some? then Stopped else Unprepared
  {
    if env.source.Some? {
      var source, r := env.source.value, OnPrepare(p, env);
      var cs := NewCodecs(p.made, source, |source.keys|);
      assert p.codecs + cs == cs;
      NewCodecsOk(r.codecs, p.made, source, env.config);
      assert r.samples[..r.next] == [];
    }
  }

  lemma OnStartKeeps(p: Player)
    requires Inv(p, 0) && p.phase == Stopped
    ensures Inv(OnStart(p), 0) && OnStart(p).failure == p.failure
  {
    var w := Work(p.generation + 1);
    OlderOnly(p, p.generation + 1);
    TimesAppend(p.pending, w, w);
  }

  lemma OnStopKeeps(p: Player)
    requires Inv(p, 0) && p.phase == Started
    ensures Inv(OnStop(p), 0) && OnStop(p).phase == Stopped && OnStop(p).failure == p.failure
  {
    OlderOnly(p, p.generation + 1);
  }

  lemma OnResetKeeps(p: Player)
    requires Inv(p, 0) && p.phase == Stopped
    ensures Inv(OnReset(p), 0)
    ensures OnReset(p).live == {} && OnReset(p).failure == p.failure
  {
    var r := OnReset(p);
    assert Ids(r.codecs) == {};
  }

  // ----- A round of work -----

  /** Rendering changes nothing but the tracks. */
  predicate OnlyTracks(a: seq<Codec>, b: seq<Codec>) {
    |a| == |b| && forall k :: 0 <= k < |a| ==> b[k] == a[k].(track := b[k].track)
  }

  lemma {:induction false} RenderFromIs(cs: seq<Codec>, env: Env, start: int)
    requires AllInv(cs)
    ensures var r := RenderFrom(cs, env, start);
            OnlyTracks(cs, r) && AllInv(r)
  {
    if cs != [] {
      var c := cs[0];
      PT.RenderAllKeeps(c.track, env.nowUs, start, env.plays(c.id));
      RenderFromIs(cs[1..], env, start);
    }
  }

  /** Unless the process ended, every track was rendered. */
  lemma {:induction false} RenderedAll(cs: seq<Codec>, env: Env, start: int, k: nat)
    requires AllInv(cs) && !Short(RenderFrom(cs, env, start)) && k < |cs|
    ensures RenderFrom(cs, env, start)[k] == RenderOne(cs[k], env, start)
  {
    var rest := RenderedFirst(cs, env, start);
    if k > 0 {
      RenderedAll(cs[1..], env, start, k - 1);
      assert RenderFrom(cs, env, start)[k] == rest[k - 1];
    }
  }

  lemma RenderedFirst(cs: seq<Codec>, env: Env, start: int) returns (rest: seq<Codec>)
    requires AllInv(cs) && !Short(RenderFrom(cs, env, start)) && cs != []
    ensures rest == RenderFrom(cs[1..], env, start) && !Short(rest)
    ensures RenderFrom(cs, env, start) == [RenderOne(cs[0], env, start)] + rest
  {
    var c := RenderOne(cs[0], env, start);
    rest := if c.track.aborted then cs[1..] else RenderFrom(cs[1..], env, start);
    assert RenderFrom(cs, env, start) == [c] + rest;
    ShortCons(c, rest);
  }

  lemma ShortCons(c: Codec, rest: seq<Codec>)
    ensures Short([c] + rest) <==> c.track.aborted || Short(rest)
  {
    var cs := [c] + rest;
    if c.track.aborted {
      assert cs[0].track.aborted;
    } else if Short(rest) {
      var k :| 0 <= k < |rest| && rest[k].track.aborted;
      assert cs[k + 1].track.aborted;
    }
  }

  lemma DrainedRight(cs: seq<Codec>, env: Env, samples: seq<Sample>)
    requires EnvOk(env) && InputsRight(cs, samples)
    ensures InputsRight(DrainAll(cs, env), samples)
  {
    var r := DrainAll(cs, env);
    forall k | 0 <= k < |r| ensures InputRight(r[k], samples) {
      assert InputRight(cs[k], samples);
      GrantRight(cs[k], env.inputs(cs[k].id), samples);
    }
  }

  lemma TracksDoNotMatter(a: seq<Codec>, b: seq<Codec>, samples: seq<Sample>)
    requires OnlyTracks(a, b) && InputsRight(a, samples)
    ensures InputsRight(b, samples)
  {
    assert Keys(b) == Keys(a);
    forall k | 0 <= k < |b| ensures InputRight(b[k], samples) {
      assert InputRight(a[k], samples);
    }
  }

  /** Feeding keeps what the codecs were given right, and goes on as long as it can. */
  lemma FedRight(p: Player, env: Env)
    requires InputsOk(p) && EnvOk(env)
    ensures var (fed, next) := Fed(p, env);
            && InputsRight(fed, p.samples[..next])
            && Selected(p.samples, Keys(fed)) && FedUp(fed, p.samples, next)
            && Keys(fed) == Keys(p.codecs)
            && forall k :: 0 <= k < |fed| ==> fed[k].id == p.codecs[k].id && fed[k].csd == p.codecs[k].csd
  {
    var drained := DrainAll(p.codecs, env);
    DrainedRight(p.codecs, env, p.samples[..p.next]);
    FeedAllRight(drained, p.samples, p.next);
    FeedAllFeedsUp(drained, p.samples, p.next);
    FeedAllOnlyInput(drained, p.samples, p.next);
    var fed := Fed(p, env).0;
    forall k | 0 <= k < |fed|
      ensures fed[k].id == p.codecs[k].id && fed[k].key == p.codecs[k].key && fed[k].csd == p.codecs[k].csd
    {
      assert fed[k] == drained[k].(avail := fed[k].avail, queued := fed[k].queued);
    }
  }

  lemma SameIds(a: seq<Codec>, b: seq<Codec>)
    requires |a| == |b| && forall k :: 0 <= k < |a| ==> a[k].id == b[k].id
    ensures Ids(a) == Ids(b)
  {
    forall x ensures x in Ids(a) <==> x in Ids(b) {
      if x in Ids(a) {
        var k :| 0 <= k < |a| && a[k].id == x;
        assert b[k] in b;
      }
      if x in Ids(b) {
        var k :| 0 <= k < |b| && b[k].id == x;
        assert a[k] in a;
      }
    }
  }

  lemma RenderedKeepsInputs(fed: seq<Codec>, r: seq<Codec>, samples: seq<Sample>, next: nat)
    requires next <= |samples| && InputsRight(fed, samples[..next]) && OnlyTracks(fed, r)
    requires Selected(samples, Keys(fed)) && FedUp(fed, samples, next)
    ensures InputsRight(r, samples[..next]) && Selected(samples, Keys(r)) && FedUp(r, samples, next)
  {
    TracksDoNotMatter(fed, r, samples[..next]);
    assert Keys(r) == Keys(fed);
  }

  lemma SameCsd(a: seq<Codec>, fed: seq<Codec>, b: seq<Codec>, csd: map<nat, seq<seq<int>>>)
    requires CsdRight(a, csd) && OnlyTracks(fed, b) && Keys(fed) == Keys(a)
    requires forall k :: 0 <= k < |fed| ==> fed[k].csd == a[k].csd
    ensures CsdRight(b, csd)
  {
    forall k | 0 <= k < |b| ensures b[k].key in csd && b[k].csd == csd[b[k].key] {
      assert Keys(fed)[k] == Keys(a)[k];
      assert b[k] == fed[k].(track := b[k].track);
    }
  }

  lemma RoundKeepsInputs(p: Player, env: Env)
    requires InputsOk(p) && EnvOk(env) && p.extractor && Ids(p.codecs) <= p.live
    ensures var q := OnDoMoreStuff(p, env);
            && InputsOk(q) && Ids(q.codecs) == Ids(p.codecs) && FedUp(q.codecs, q.samples, q.next)
  {
    var q := OnDoMoreStuff(p, env);
    var (fed, next) := Fed(p, env);
    FedRight(p, env);
    RenderFromIs(fed, env, q.startUs);
    RenderedKeepsInputs(fed, q.codecs, p.samples, next);
    SameIds(p.codecs, q.codecs);
    SameCsd(p.codecs, fed, q.codecs, p.csd);
  }

  lemma RoundKeeps(p: Player, env: Env)
    requires Inv(p, 1) && EnvOk(env) && p.failure == Running
    ensures Inv(OnDoMoreStuff(p, env), 1)
    ensures OnDoMoreStuff(p, env).generation == p.generation && OnDoMoreStuff(p, env).phase == Started
  {
    assert p.phase == Started;
    RoundKeepsInputs(p, env);
  }

  /** The work message is posted again. */
  lemma RepostKeeps(p: Player)
    requires Inv(p, 1)
    ensures Inv(p.(pending := p.pending + [Work(p.generation)]), 0)
  {
    TimesAppend(p.pending, Work(p.generation), Work(p.generation));
  }

  lemma WorkKeeps(p: Player, env: Env)
    requires Inv(p, 1) && EnvOk(env) && p.failure == Running
    ensures Inv(OnMessage(p, Work(p.generation), env), if OnDoMoreStuff(p, env).failure == Running then 0 else 1)
  {
    RoundKeeps(p, env);
    RepostKeeps(OnDoMoreStuff(p, env));
  }

  lemma StartKeeps(p: Player, env: Env)
    requires Inv(p, 0) && EnvOk(env) && p.failure == Running
    ensures Inv(OnCall(p, Start, env), 0) && OnCall(p, Start, env).failure == Running
  {
    var p1 := if p.phase == Unprepared then OnPrepare(p, env) else p;
    if p.phase == Unprepared {
      OnPrepareKeeps(p, env);
    }
    if p1.phase == Stopped {
      OnStartKeeps(p1);
    }
  }

  lemma ResetKeeps(p: Player, env: Env)
    requires Inv(p, 0) && p.failure == Running
    ensures Inv(OnCall(p, Reset, env), 0) && OnCall(p, Reset, env).failure == Running
    ensures OnCall(p, Reset, env).phase != Started
  {
    var p1 := if p.phase == Started then OnStop(p) else p;
    if p.phase == Started {
      OnStopKeeps(p);
    }
    if p1.phase == Stopped {
      OnResetKeeps(p1);
    }
  }

  lemma CallKeeps(p: Player, m: Message, env: Env)
    requires Inv(p, 0) && EnvOk(env) && p.failure == Running && !m.Work?
    ensures Inv(OnCall(p, m, env), 0) && OnCall(p, m, env).failure == Running
    ensures m.Stop? || m.Reset? ==> OnCall(p, m, env).phase != Started
  {
    if m.Start? {
      StartKeeps(p, env);
    } else if m.Reset? {
      ResetKeeps(p, env);
    } else if m.Prepare? && p.phase == Unprepared {
      OnPrepareKeeps(p, env);
    } else if m.Stop? && p.phase == Started {
      OnStopKeeps(p);
    }
  }

  lemma ControlKeeps(p: Player, m: Message, env: Env)
    requires Inv(p, 0) && EnvOk(env) && p.failure == Running && !m.Work?
    ensures Inv(OnMessage(p, m, env), 0) && OnMessage(p, m, env).failure == Running
    ensures m.Stop? || m.Reset? ==> OnMessage(p, m, env).phase != Started
  {
    CallKeeps(p, m, env);
  }

  /** The invariant between messages: only a failed write can end the process. */
  ghost predicate Good(p: Player) {
    if p.failure == Running then Inv(p, 0) else p.failure == ShortWrite
  }

  lemma StepKeeps(p: Player, e: Event)
    requires Good(p) && Enabled(p, e)
    ensures Good(Step(p, e))
  {
    match e
    case Call(m) =>
      TimesAppend(p.pending, m, Work(p.generation));
    case Deliver(i, env) =>
      var m := p.pending[i];
      var p0 := p.(pending := Without(p.pending, i));
      TimesWithout(p.pending, i, Work(p.generation));
      if m == Work(p.generation) {
        WorkKeeps(p0, env);
      } else if !m.Work? {
        ControlKeeps(p0, m, env);
      }
  }

  lemma {:induction false} RunKeeps(p: Player, run: seq<Event>)
    requires Good(p) && RunFrom(p, run)
    ensures Good(After(p, run))
    decreases |run|
  {
    if run != [] {
      StepKeeps(p, run[0]);
      RunKeeps(Step(p, run[0]), run[1..]);
    }
  }

  lemma InitialGood(p: Player)
    requires p == INITIAL
    ensures Good(p)
  {
    assert WorkOk(p, 0) by {
      assert Work(0) !in p.pending;
    }
    assert ObjectsOk(p) by {
      assert Ids([]) == {};
    }
    assert p.samples[..0] == [];
  }

  ghost predicate Reachable(p: Player) {
    exists run :: RunFrom(INITIAL, run) && After(INITIAL, run) == p
  }

  lemma ReachableGood(p: Player)
    requires Reachable(p)
    ensures Good(p)
  {
    var run :| RunFrom(INITIAL, run) && After(INITIAL, run) == p;
    InitialGood(INITIAL);
    RunKeeps(INITIAL, run);
  }

  // ----- Main results -----

  /** In every reachable state: no CHECK on the state fired and no handler touched an extractor
      or a codec that was gone. */
  lemma NoCheckFires(p: Player)
    requires Reachable(p)
    ensures p.failure != StateCheck && p.failure != DeadObject
  {
    ReachableGood(p);
  }

  /** In every reachable state of a live process: the player is started exactly if one pending
      work message is current, all others are older; the extractor and the codecs exist
      exactly while it is prepared, and no codec is forgotten. */
  lemma StartedExactly(p: Player)
    requires Reachable(p) && p.failure == Running
    ensures p.phase == Started <==> Times(p.pending, Work(p.generation)) == 1
    ensures p.phase != Started <==> Times(p.pending, Work(p.generation)) == 0
    ensures forall g: nat :: Work(g) in p.pending && g != p.generation ==> g < p.generation
    ensures p.extractor <==> p.phase == Stopped || p.phase == Started
    ensures p.live == Ids(p.codecs) && (!p.extractor ==> p.live == {})
  {
    ReachableGood(p);
  }

  /** A work message of an older generation does nothing but disappear; a current one is only
      ever delivered while the player is started. */
  lemma StaleWorkDoesNothing(p: Player, i: nat, env: Env)
    requires Reachable(p) && Enabled(p, Deliver(i, env)) && p.pending[i].Work?
    ensures p.pending[i] != Work(p.generation) ==>
              Step(p, Deliver(i, env)) == p.(pending := Without(p.pending, i))
    ensures p.pending[i] == Work(p.generation) ==> p.phase == Started
  {
    ReachableGood(p);
    TimesWithout(p.pending, i, Work(p.generation));
  }

  lemma OldWork(p: Player, g: nat)
    requires WorkOk(p, 0) && p.phase != Started && Work(g) in p.pending
    ensures g < p.generation
  {
    assert Times(p.pending, Work(g)) > 0;
  }

  /** Whatever is pending, stopping or resetting makes every work message stale. */
  lemma StopSilences(p: Player, i: nat, env: Env, g: nat)
    requires Reachable(p) && Enabled(p, Deliver(i, env)) && (p.pending[i].Stop? || p.pending[i].Reset?)
    ensures var q := Step(p, Deliver(i, env));
            q.phase != Started && (Work(g) in q.pending ==> g < q.generation)
  {
    ReachableGood(p);
    var p0 := p.(pending := Without(p.pending, i));
    TimesWithout(p.pending, i, Work(p.generation));
    ControlKeeps(p0, p.pending[i], env);
    if Work(g) in OnMessage(p0, p.pending[i], env).pending {
      OldWork(OnMessage(p0, p.pending[i], env), g);
    }
  }

  /** In every reachable state of a live process every codec was given the configuration data of its
      track and
      then exactly the samples of its own track that the extractor has passed, in order, in the
      buffers it handed out, in order and each used once. */
  lemma InputsAreRight(p: Player, c: Codec)
    requires Reachable(p) && p.failure == Running && c in p.codecs
    ensures p.next <= |p.samples| && InputRight(c, p.samples[..p.next])
    ensures c.key in p.csd && c.csd == p.csd[c.key]
  {
    ReachableGood(p);
    var k :| 0 <= k < |p.codecs| && p.codecs[k] == c;
    assert InputRight(p.codecs[k], p.samples[..p.next]);
  }

  /** A round of work feeds as long as it can. */
  lemma WorkFeedsUp(p: Player, i: nat, env: Env)
    requires Reachable(p) && Enabled(p, Deliver(i, env)) && p.pending[i] == Work(p.generation)
    ensures var q := Step(p, Deliver(i, env));
            && q.samples == p.samples && p.next <= q.next <= |q.samples| && Selected(q.samples, Keys(q.codecs))
            && FedUp(q.codecs, q.samples, q.next)
  {
    ReachableGood(p);
    TimesWithout(p.pending, i, Work(p.generation));
    RoundKeepsInputs(p.(pending := Without(p.pending, i)), env);
  }

  /** Every call that is delivered is answered once, and the answer tells what it did: a refused
      call changes nothing.  There are two exceptions: resetting an unprepared player changes
      nothing and is answered with Ok, and setting a source is answered with a status that was
      never assigned. */
  lemma AnswersTell(p: Player, i: nat, env: Env)
    requires Reachable(p) && Enabled(p, Deliver(i, env)) && !p.pending[i].Work?
    ensures var m, q, a := p.pending[i], Step(p, Deliver(i, env)), AnswerTo(p, p.pending[i], env);
            && q.replies == p.replies + [Reply(m, a)]
            && (a == InvalidOperation ==> q == p.(pending := q.pending, replies := q.replies))
            && (a == OpenFailed <==> (m.Prepare? || m.Start?) && p.phase == Unprepared && env.source.None?)
            && (a == OpenFailed ==> q == p.(pending := q.pending, replies := q.replies))
            && (m.SetSurface? ==> (a == Ok <==> p.phase == Unprepared) && (a == Ok ==> q.surface == m.surface))
            && (!m.SetSurface? ==> q.surface == if m.Reset? && p.extractor then None else p.surface)
            && (m.Start? ==> (a == Ok <==> p.phase != Started && q.phase == Started))
            && (m.Prepare? ==> (a == Ok <==> p.phase == Unprepared && q.phase == Stopped))
            && (m.Stop? ==> (a == Ok <==> p.phase == Started) && (a == Ok ==> q.phase == Stopped))
            && (m.Reset? ==> a == Ok && q.phase == if p.phase == Unprepared then Unprepared else Uninitialized)
            && (m.SetDataSource? ==> (a == Unassigned <==> p.phase == Uninitialized && q.phase == Unprepared))
  {
    ReachableGood(p);
    var m, p0 := p.pending[i], p.(pending := Without(p.pending, i));
    TimesWithout(p.pending, i, Work(p.generation));
    CallKeeps(p0, m, env);
    assert AnswerTo(p0, m, env) == AnswerTo(p, m, env);
    if p0.phase == Unprepared {
      OnPrepareKeeps(p0, env);
    }
  }

  ghost predicate Leads(p: Player, run: seq<Event>, r: Player) {
    RunFrom(p, run) && After(p, run) == r
  }

  lemma LeadsFirst(p: Player, run: seq<Event>, r: Player)
    requires run != [] && Enabled(p, run[0]) && Leads(Step(p, run[0]), run[1..], r)
    ensures Leads(p, run, r)
  {
  }

  /** Such a run: a source is set, and the player is reset before it was prepared. */
  lemma AnswersExample(run: seq<Event>, env: Env)
    requires run == [Call(SetDataSource), Deliver(0, env), Call(Reset), Deliver(0, env)] && EnvOk(env)
    ensures RunFrom(INITIAL, run)
    ensures After(INITIAL, run).phase == Unprepared && After(INITIAL, run).failure == Running
    ensures After(INITIAL, run).replies == [Reply(SetDataSource, Unassigned), Reply(Reset, Ok)]
  {
    var p0 := INITIAL;
    var p1 := p0.(pending := [SetDataSource]);
    var p2 := p0.(phase := Unprepared, path := true, replies := [Reply(SetDataSource, Unassigned)]);
    var p3 := p2.(pending := [Reset]);
    var p4 := p2.(replies := p2.replies + [Reply(Reset, Ok)]);
    assert Step(p0, run[0]) == p1;
    assert Without(p1.pending, 0) == [];
    assert Step(p1, run[1]) == p2;
    assert Step(p2, run[2]) == p3;
    assert Without(p3.pending, 0) == [];
    assert Step(p3, run[3]) == p4;
    assert Leads(p4, run[4..], p4);
    LeadsFirst(p3, run[3..], p4);
    LeadsFirst(p2, run[2..], p4);
    LeadsFirst(p1, run[1..], p4);
    LeadsFirst(p0, run, p4);
  }
}
