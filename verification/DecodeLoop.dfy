/**
 The decode function of cmds/stagefright/codec.cpp: one loop that feeds samples to the codecs of
 the selected tracks, signals the end of the input, and drains the codecs until all are done.
 */
module DecodeLoop {
  import opened Arithmetic
  import opened CodecInput

  // ----- Tracks -----

  /** What dequeueOutputBuffer answers. */
  datatype Reply =
    | Buffer(index: nat, size: nat, timeUs: int, eos: bool)
    | BuffersChanged
    | FormatChanged
    | TryAgain

  /** An entry of stateByTrack, with what its codec was given and what it got back. */
  datatype Track = Track(
    key: nat,                    // the track's number in the file
    queued: seq<Input>,
    signalled: bool,             // mSignalledInputEOS
    done: bool,                  // mSawOutputEOS
    buffers: nat,                // mNumBuffersDecoded
    bytes: nat,                  // mNumBytesDecoded
    released: seq<Reply>)        // the output buffers released to the codec

  /** A buffer rendered at a time: the clock when it was dequeued and the time asked for. */
  datatype Render = Render(timeUs: int, nowNs: int, atNs: int)

  datatype State = State(
    tracks: seq<Track>,
    next: nat,                   // number of samples the extractor has passed
    sawInputEos: bool,
    anchor: int,                 // startTimeRender
    renders: seq<Render>,
    finished: bool)              // the loop was left

  /** The samples of the selected tracks in file order, and whether buffers are rendered at a
      given time. */
  datatype Source = Source(samples: seq<Sample>, timed: bool)

  /** What the codecs answer in one round of the loop: whether there is an input buffer for the
      next sample, whether track `i` has one for the end mark, and what it puts out. */
  datatype Round = Round(grant: bool, endGrant: nat -> bool, reply: nat -> Reply, nowNs: nat -> int)

  const UNSET := -1
  const LEAD_NS := 33000000

  function NewTracks(keys: seq<nat>): (ts: seq<Track>)
    ensures |ts| == |keys|
  {
    seq(|keys|, i requires 0 <= i < |keys| => Track(keys[i], [], false, false, 0, 0, []))
  }

  function Initial(keys: seq<nat>): State {
    State(NewTracks(keys), 0, false, UNSET, [], false)
  }

  function Keys(ts: seq<Track>): (keys: seq<nat>)
    ensures |keys| == |ts|
  {
    seq(|ts|, i requires 0 <= i < |ts| => ts[i].key)
  }

  // ----- One round -----

  function Give(t: Track, x: Input): Track {
    t.(queued := t.queued + [x])
  }

  function Feed(st: State, src: Source, grant: bool): State
    requires st.next <= |src.samples| && Selected(src.samples, Keys(st.tracks))
  {
    if st.next == |src.samples| then st.(sawInputEos := true)
    else if !grant then st
    else
      var s := src.samples[st.next];
      var i := KeyIndex(Keys(st.tracks), s.track);
      st.(tracks := st.tracks[i := Give(st.tracks[i], Data(s))], next := st.next + 1)
  }

  function SignalOne(t: Track, grant: bool): Track {
    if t.signalled || !grant then t else Give(t, EndOfStream).(signalled := true)
  }

  function Signal(st: State, r: Round): (st': State)
    ensures |st'.tracks| == |st.tracks|
  {
    st.(tracks := seq(|st.tracks|, i requires 0 <= i < |st.tracks| => SignalOne(st.tracks[i], r.endGrant(i))))
  }

  predicate AllDone(ts: seq<Track>) {
    forall i :: 0 <= i < |ts| ==> ts[i].done
  }

  function Drained(t: Track, reply: Reply): Track {
    if t.done || !reply.Buffer? then t
    else t.(buffers := t.buffers + 1, bytes := t.bytes + reply.size,
            released := t.released + [reply], done := reply.eos)
  }

  /** The anchor after a buffer: set by the first one, two frames ahead of its decoding. */
  function Anchor(anchor: int, timeUs: int, nowNs: int): int {
    if anchor == UNSET then nowNs + LEAD_NS - timeUs * 1000 else anchor
  }

  function Rendered(st: State, timeUs: int, nowNs: int): State {
    var a := Anchor(st.anchor, timeUs, nowNs);
    st.(anchor := a, renders := st.renders + [Render(timeUs, nowNs, timeUs * 1000 + a)])
  }

  function DrainOne(st: State, src: Source, r: Round, i: nat): (st': State)
    requires i < |st.tracks|
    ensures |st'.tracks| == |st.tracks|
  {
    var t, reply := st.tracks[i], r.reply(i);
    var st1 := if !t.done && reply.Buffer? && src.timed then Rendered(st, reply.timeUs, r.nowNs(i)) else st;
    st1.(tracks := st.tracks[i := Drained(t, reply)])
  }

  function DrainFrom(st: State, src: Source, r: Round, i: nat): (st': State)
    requires i <= |st.tracks|
    ensures |st'.tracks| == |st.tracks|
    decreases |st.tracks| - i
  {
    if i == |st.tracks| then st else DrainFrom(DrainOne(st, src, r, i), src, r, i + 1)
  }

  /** The first half of a round: samples, or end marks. */
  function FeedOrSignal(st: State, src: Source, r: Round): State
    requires st.next <= |src.samples| && Selected(src.samples, Keys(st.tracks))
  {
    if !st.sawInputEos then Feed(st, src, r.grant) else Signal(st, r)
  }

  function Step(st: State, src: Source, r: Round): State
    requires Inv(st, src)
  {
    if st.finished then st
    else
      var st1 := FeedOrSignal(st, src, r);
      if AllDone(st1.tracks) then st1.(finished := true) else DrainFrom(st1, src, r, 0)
  }

  /** All rounds, until the loop is left. */
  function Run(st: State, src: Source, rs: seq<Round>): (st': State)
    requires Inv(st, src)
    ensures Inv(st', src)
    decreases |rs|
  {
    if rs == [] then st
    else
      StepKeeps(st, src, rs[0]);
      Run(Step(st, src, rs[0]), src, rs[1..])
  }

  // ----- The invariant -----

  function Mark(signalled: bool): seq<Input> {
    if signalled then [EndOfStream] else []
  }

  /** The codec of a track was given the track's samples so far, in order and each once, and the
      end mark, if any, behind all of them. */
  predicate FedRight(t: Track, samples: seq<Sample>) {
    t.queued == Of(samples, t.key) + Mark(t.signalled)
  }

  function Sizes(bs: seq<Reply>): nat {
    if bs == [] then 0
    else Sizes(bs[..|bs| - 1]) + if bs[|bs| - 1].Buffer? then bs[|bs| - 1].size else 0
  }

  predicate CountsRight(t: Track) {
    t.buffers == |t.released| && t.bytes == Sizes(t.released)
  }

  predicate Inv(st: State, src: Source) {
    && st.next <= |src.samples|
    && DistinctKeys(Keys(st.tracks)) && Selected(src.samples, Keys(st.tracks))
    && (st.sawInputEos ==> st.next == |src.samples|)
    && (forall i :: 0 <= i < |st.tracks| ==> TrackRight(st, src, st.tracks[i]))
    && (st.finished ==> AllDone(st.tracks))
  }

  predicate TrackRight(st: State, src: Source, t: Track)
    requires st.next <= |src.samples|
  {
    && FedRight(t, src.samples[..st.next])
    && (t.signalled ==> st.sawInputEos)
    && CountsRight(t)
  }

  lemma GiveRight(t: Track, samples: seq<Sample>, n: nat)
    requires n < |samples| && FedRight(t, samples[..n]) && !t.signalled
    ensures FedRight(if samples[n].track == t.key then Give(t, Data(samples[n])) else t, samples[..n + 1])
  {
    OfNext(samples, n, t.key);
  }

  lemma SignalRight(t: Track, grant: bool, samples: seq<Sample>)
    requires FedRight(t, samples)
    ensures FedRight(SignalOne(t, grant), samples)
  {
    assert Of(samples, t.key) + [] == Of(samples, t.key);
  }

  /** Feeding and signalling leave keys and outputs alone, and never take a mark back. */
  predicate OnlyInput(a: Track, b: Track) {
    && a.key == b.key && (a.signalled ==> b.signalled)
    && a.done == b.done && a.released == b.released && a.buffers == b.buffers && a.bytes == b.bytes
  }

  predicate OnlyInputs(a: seq<Track>, b: seq<Track>) {
    |a| == |b| && forall i :: 0 <= i < |a| ==> OnlyInput(a[i], b[i])
  }

  lemma KeysOfInputs(a: seq<Track>, b: seq<Track>)
    requires OnlyInputs(a, b)
    ensures Keys(b) == Keys(a)
  {
    forall i | 0 <= i < |a| ensures a[i].key == b[i].key {
      assert OnlyInput(a[i], b[i]);
    }
  }

  /** Assembling the invariant after a change of the tracks. */
  lemma InvFrom(st: State, st': State, src: Source)
    requires Inv(st, src) && Keys(st'.tracks) == Keys(st.tracks)
    requires st'.next <= |src.samples| && (st'.sawInputEos ==> st'.next == |src.samples|)
    requires forall i :: 0 <= i < |st'.tracks| ==> TrackRight(st', src, st'.tracks[i])
    requires !st'.finished
    ensures Inv(st', src)
  {
  }

  lemma FeedKeeps(st: State, src: Source, grant: bool)
    requires Inv(st, src) && !st.sawInputEos && !st.finished
    ensures Inv(Feed(st, src, grant), src) && OnlyInputs(st.tracks, Feed(st, src, grant).tracks)
  {
    var r := Feed(st, src, grant);
    forall i | 0 <= i < |r.tracks|
      ensures TrackRight(r, src, r.tracks[i]) && OnlyInput(st.tracks[i], r.tracks[i])
    {
      assert TrackRight(st, src, st.tracks[i]);
      if st.next < |src.samples| && grant {
        GiveRight(st.tracks[i], src.samples, st.next);
        var j := KeyIndex(Keys(st.tracks), src.samples[st.next].track);
        assert i != j ==> Keys(st.tracks)[i] != Keys(st.tracks)[j];
      }
    }
    KeysOfInputs(st.tracks, r.tracks);
    InvFrom(st, r, src);
  }

  lemma SignalKeeps(st: State, src: Source, r: Round)
    requires Inv(st, src) && st.sawInputEos && !st.finished
    ensures Inv(Signal(st, r), src) && OnlyInputs(st.tracks, Signal(st, r).tracks)
  {
    var st1 := Signal(st, r);
    forall i | 0 <= i < |st1.tracks|
      ensures TrackRight(st1, src, st1.tracks[i]) && OnlyInput(st.tracks[i], st1.tracks[i])
    {
      assert TrackRight(st, src, st.tracks[i]);
      SignalRight(st.tracks[i], r.endGrant(i), src.samples[..st.next]);
    }
    KeysOfInputs(st.tracks, st1.tracks);
    InvFrom(st, st1, src);
  }

  lemma FeedOrSignalKeeps(st: State, src: Source, r: Round)
    requires Inv(st, src) && !st.finished
    ensures Inv(FeedOrSignal(st, src, r), src) && OnlyInputs(st.tracks, FeedOrSignal(st, src, r).tracks)
    ensures !FeedOrSignal(st, src, r).finished
    ensures FeedOrSignal(st, src, r).next == Min(|src.samples|, st.next + Granted(r))
  {
    if st.sawInputEos {
      SignalKeeps(st, src, r);
    } else {
      FeedKeeps(st, src, r.grant);
    }
  }

  /** Draining works on every track by itself; only the rendering times run through all of them. */
  lemma {:induction false} DrainTracks(st: State, src: Source, r: Round, i: nat)
    requires i <= |st.tracks|
    ensures var st' := DrainFrom(st, src, r, i);
            && st' == st.(tracks := st'.tracks, anchor := st'.anchor, renders := st'.renders)
            && forall k :: 0 <= k < |st.tracks| ==>
                 st'.tracks[k] == if k < i then st.tracks[k] else Drained(st.tracks[k], r.reply(k))
    decreases |st.tracks| - i
  {
    if i < |st.tracks| {
      DrainTracks(DrainOne(st, src, r, i), src, r, i + 1);
    }
  }

  lemma DrainedCounts(t: Track, reply: Reply)
    requires CountsRight(t)
    ensures CountsRight(Drained(t, reply))
  {
    assert (t.released + [reply])[..|t.released|] == t.released;
  }

  /** A round works on every track by itself: input, then output. */
  lemma StepTracks(st: State, src: Source, r: Round)
    requires Inv(st, src) && !st.finished
    ensures var st1, st' := FeedOrSignal(st, src, r), Step(st, src, r);
            && |st'.tracks| == |st1.tracks| == |st.tracks|
            && st'.next == st1.next && st'.sawInputEos == st1.sawInputEos
            && (st'.finished <==> AllDone(st1.tracks))
            && forall k :: 0 <= k < |st.tracks| ==> st'.tracks[k] == Drained(st1.tracks[k], r.reply(k))
  {
    FeedOrSignalKeeps(st, src, r);
    DrainTracks(FeedOrSignal(st, src, r), src, r, 0);
  }

  lemma DrainedRight(a: State, b: State, src: Source, t: Track, reply: Reply)
    requires a.next == b.next <= |src.samples| && a.sawInputEos == b.sawInputEos && TrackRight(a, src, t)
    ensures TrackRight(b, src, Drained(t, reply))
  {
    DrainedCounts(t, reply);
  }

  lemma StepKeeps(st: State, src: Source, r: Round)
    requires Inv(st, src)
    ensures Inv(Step(st, src, r), src) && Keys(Step(st, src, r).tracks) == Keys(st.tracks)
  {
    if !st.finished {
      StepRight(st, src, r);
    }
  }

  lemma StepTrackRight(st: State, src: Source, r: Round, k: nat)
    requires Inv(st, src) && !st.finished && k < |st.tracks|
    ensures var st1, st' := FeedOrSignal(st, src, r), Step(st, src, r);
            && |st'.tracks| == |st1.tracks| == |st.tracks| && st'.next <= |src.samples|
            && TrackRight(st', src, st'.tracks[k]) && st'.tracks[k].key == st.tracks[k].key
            && (st1.tracks[k].done ==> st'.tracks[k].done)
  {
    var st1, st' := FeedOrSignal(st, src, r), Step(st, src, r);
    FeedOrSignalKeeps(st, src, r);
    StepTracks(st, src, r);
    assert OnlyInput(st.tracks[k], st1.tracks[k]);
    assert TrackRight(st1, src, st1.tracks[k]);
    DrainedRight(st1, st', src, st1.tracks[k], r.reply(k));
  }

  lemma StepRight(st: State, src: Source, r: Round)
    requires Inv(st, src) && !st.finished
    ensures var st' := Step(st, src, r);
            && st'.next <= |src.samples| && (st'.sawInputEos ==> st'.next == |src.samples|)
            && Keys(st'.tracks) == Keys(st.tracks)
            && (forall k :: 0 <= k < |st'.tracks| ==> TrackRight(st', src, st'.tracks[k]))
            && (st'.finished ==> AllDone(st'.tracks))
  {
    var st1, st' := FeedOrSignal(st, src, r), Step(st, src, r);
    FeedOrSignalKeeps(st, src, r);
    StepTracks(st, src, r);
    forall k | 0 <= k < |st'.tracks|
      ensures TrackRight(st', src, st'.tracks[k]) && st'.tracks[k].key == st.tracks[k].key
      ensures st1.tracks[k].done ==> st'.tracks[k].done
    {
      StepTrackRight(st, src, r, k);
    }
  }

  lemma RunFirst(st: State, src: Source, rs: seq<Round>, k: nat)
    requires Inv(st, src) && k < |rs|
    ensures Inv(Step(st, src, rs[k]), src)
    ensures Run(st, src, rs[k..]) == Run(Step(st, src, rs[k]), src, rs[k + 1..])
  {
    StepKeeps(st, src, rs[k]);
    assert rs[k..][0] == rs[k] && rs[k..][1..] == rs[k + 1..];
  }

  lemma InitialInv(keys: seq<nat>, src: Source)
    requires DistinctKeys(keys) && Selected(src.samples, keys)
    ensures Inv(Initial(keys), src)
  {
    assert src.samples[..0] == [];
    assert Keys(NewTracks(keys)) == keys;
  }

  lemma {:induction false} RunKeys(st: State, src: Source, rs: seq<Round>)
    requires Inv(st, src)
    ensures Keys(Run(st, src, rs).tracks) == Keys(st.tracks)
    decreases |rs|
  {
    if rs != [] {
      StepKeeps(st, src, rs[0]);
      RunKeys(Step(st, src, rs[0]), src, rs[1..]);
    }
  }

  // ----- Main results: what the codecs are given -----

  /** Where a run of the loop can start. */
  predicate Start(keys: seq<nat>, src: Source) {
    DistinctKeys(keys) && Selected(src.samples, keys)
  }

  /** After any number of rounds with any answers, every codec was given exactly the samples of
      its own track that the extractor has passed, in order; then at most one end mark, not
      before the extractor was at the end, and nothing behind it. */
  lemma QueuedExactly(keys: seq<nat>, src: Source, rs: seq<Round>, i: nat)
    requires Start(keys, src) && i < |keys|
    ensures Inv(Initial(keys), src)
    ensures var st := Run(Initial(keys), src, rs);
            && |st.tracks| == |keys| && st.tracks[i].key == keys[i] && st.next <= |src.samples|
            && st.tracks[i].queued
               == Of(src.samples[..st.next], keys[i]) + Mark(st.tracks[i].signalled)
            && (st.tracks[i].signalled ==> st.next == |src.samples|)
  {
    InitialInv(keys, src);
    RunKeys(Initial(keys), src, rs);
    var st := Run(Initial(keys), src, rs);
    assert Keys(st.tracks) == Keys(NewTracks(keys)) == keys;
    assert Keys(st.tracks)[i] == st.tracks[i].key;
    assert TrackRight(st, src, st.tracks[i]);
  }

  // ----- Main results: when the loop ends -----

  /** A codec puts out the end mark only after it was given one. */
  predicate HonestRound(ts: seq<Track>, r: Round) {
    forall i :: 0 <= i < |ts| && r.reply(i).Buffer? && r.reply(i).eos ==> ts[i].signalled
  }

  predicate Honest(st: State, src: Source, rs: seq<Round>)
    requires Inv(st, src)
    decreases |rs|
  {
    rs == [] || (
      StepKeeps(st, src, rs[0]);
      HonestRound(FeedOrSignal(st, src, rs[0]).tracks, rs[0]) && Honest(Step(st, src, rs[0]), src, rs[1..]))
  }

  predicate DoneSignalled(ts: seq<Track>) {
    forall i :: 0 <= i < |ts| && ts[i].done ==> ts[i].signalled
  }

  lemma HonestStep(st: State, src: Source, r: Round)
    requires Inv(st, src) && DoneSignalled(st.tracks) && HonestRound(FeedOrSignal(st, src, r).tracks, r)
    ensures DoneSignalled(Step(st, src, r).tracks)
  {
    if !st.finished {
      var st1, st' := FeedOrSignal(st, src, r), Step(st, src, r);
      FeedOrSignalKeeps(st, src, r);
      StepTracks(st, src, r);
      forall k | 0 <= k < |st'.tracks| && st'.tracks[k].done ensures st'.tracks[k].signalled {
        assert OnlyInput(st.tracks[k], st1.tracks[k]);
      }
    }
  }

  lemma {:induction false} HonestRun(st: State, src: Source, rs: seq<Round>)
    requires Inv(st, src) && DoneSignalled(st.tracks) && Honest(st, src, rs)
    ensures DoneSignalled(Run(st, src, rs).tracks)
    decreases |rs|
  {
    if rs != [] {
      HonestStep(st, src, rs[0]);
      StepKeeps(st, src, rs[0]);
      HonestRun(Step(st, src, rs[0]), src, rs[1..]);
    }
  }

  /** With codecs that put out the end mark only after they got it, the loop is left only when
      every sample and every end mark was queued. */
  lemma ExitsComplete(keys: seq<nat>, src: Source, rs: seq<Round>, i: nat)
    requires Start(keys, src) && i < |keys|
    requires Inv(Initial(keys), src) && Honest(Initial(keys), src, rs)
    requires Run(Initial(keys), src, rs).finished
    ensures var t := Run(Initial(keys), src, rs).tracks;
            |t| == |keys| && t[i].queued == Of(src.samples, keys[i]) + [EndOfStream]
  {
    var st := Run(Initial(keys), src, rs);
    QueuedExactly(keys, src, rs, i);
    HonestRun(Initial(keys), src, rs);
    assert st.tracks[i].done;
    assert src.samples[..|src.samples|] == src.samples;
  }

  /** The loop is left in the round that finds the outputs of all tracks at their end, not
      earlier and not later. */
  lemma LeftExactly(st: State, src: Source, r: Round)
    requires Inv(st, src) && !st.finished
    ensures Step(st, src, r).finished <==> AllDone(st.tracks)
  {
    FeedOrSignalKeeps(st, src, r);
    StepTracks(st, src, r);
    var st1 := FeedOrSignal(st, src, r);
    forall i | 0 <= i < |st.tracks| ensures st.tracks[i].done == st1.tracks[i].done {
      assert OnlyInput(st.tracks[i], st1.tracks[i]);
    }
  }

  /** A codec that ends early makes the loop leave samples behind. */
  lemma EarlyEnd(src: Source, r: Round)
    requires src == Source([Sample(0, [7], 0)], false)
    requires !r.grant && r.reply(0) == Buffer(0, 1, 0, true)
    ensures Inv(Initial([0]), src)
    ensures var st := Run(Initial([0]), src, [r, r]);
            st.finished && st.next == 0 && |st.tracks| == 1 && st.tracks[0].queued == []
  {
    InitialInv([0], src);
    var st0 := Initial([0]);
    var st1 := Step(st0, src, r);
    StepTracks(st0, src, r);
    assert st0.tracks[0] == Track(0, [], false, false, 0, 0, []);
    assert AllDone(st1.tracks);
    var rs := [r, r];
    assert rs[0..] == rs && rs[2..] == [];
    RunFirst(st0, src, rs, 0);
    RunFirst(st1, src, rs, 1);
    StepTracks(st1, src, r);
  }

  // ----- The loop can always be left -----

  /** A round in which every codec has input buffers and nothing comes out. */
  const FEEDING := Round(true, i => true, i => TryAgain, i => 0)

  /** A round in which every codec takes and puts out an end mark. */
  const ENDING := Round(true, i => true, i => Buffer(0, 0, 0, true), i => 0)

  function Missing(st: State, src: Source): nat
    requires st.next <= |src.samples|
  {
    |src.samples| - st.next + if st.sawInputEos then 0 else 1
  }

  lemma FeedingAdvances(st: State, src: Source)
    requires Inv(st, src) && !st.finished && !st.sawInputEos
    ensures var st' := Step(st, src, FEEDING);
            st'.next <= |src.samples| && Missing(st', src) < Missing(st, src)
  {
    FeedOrSignalKeeps(st, src, FEEDING);
    StepTracks(st, src, FEEDING);
  }

  lemma EndingEnds(st: State, src: Source)
    requires Inv(st, src) && !st.finished && st.sawInputEos
    ensures HonestRound(FeedOrSignal(st, src, ENDING).tracks, ENDING)
    ensures AllDone(Step(st, src, ENDING).tracks)
  {
    StepTracks(st, src, ENDING);
    var st1, st' := FeedOrSignal(st, src, ENDING), Step(st, src, ENDING);
    forall i | 0 <= i < |st1.tracks| ensures st1.tracks[i].signalled && st'.tracks[i].done {
      assert ENDING.endGrant(i);
      assert st1.tracks[i] == SignalOne(st.tracks[i], ENDING.endGrant(i));
      assert st'.tracks[i] == Drained(st1.tracks[i], ENDING.reply(i));
      assert ENDING.reply(i) == Buffer(0, 0, 0, true);
    }
  }

  /** The next round on the way out. */
  function WayOut(st: State): Round {
    if st.sawInputEos && !AllDone(st.tracks) then ENDING else FEEDING
  }

  /** The codecs keep to the rule, and the loop is left. */
  predicate Leaves(st: State, src: Source, rs: seq<Round>)
    requires Inv(st, src)
  {
    Honest(st, src, rs) && Run(st, src, rs).finished
  }

  lemma {:induction false} FindWayOut(st: State, src: Source) returns (rs: seq<Round>)
    requires Inv(st, src)
    ensures Leaves(st, src, rs)
    decreases if st.finished then 0 else 1, if AllDone(st.tracks) then 0 else 1, Missing(st, src)
  {
    if st.finished {
      rs := [];
    } else {
      var r := WayOut(st);
      StepKeeps(st, src, r);
      LeftExactly(st, src, r);
      if !AllDone(st.tracks) {
        if st.sawInputEos {
          EndingEnds(st, src);
        } else {
          FeedingAdvances(st, src);
        }
      }
      var rest := FindWayOut(Step(st, src, r), src);
      rs := [r] + rest;
      assert rs[1..] == rest;
    }
  }

  /** From wherever the loop has come to with codecs that keep to the rule, they can go on keeping
      to it so that the loop is left. */
  lemma EveryRunCanBeLeft(keys: seq<nat>, src: Source, rs: seq<Round>)
    requires Start(keys, src)
    ensures Inv(Initial(keys), src)
    ensures exists more :: Leaves(Run(Initial(keys), src, rs), src, more)
  {
    InitialInv(keys, src);
    var more := FindWayOut(Run(Initial(keys), src, rs), src);
  }

  // ----- Main results: progress -----

  function Granted(r: Round): nat {
    if r.grant then 1 else 0
  }

  function Grants(rs: seq<Round>): nat {
    if rs == [] then 0 else Granted(rs[0]) + Grants(rs[1..])
  }

  lemma {:induction false} FinishedStays(st: State, src: Source, rs: seq<Round>)
    requires Inv(st, src) && st.finished
    ensures Run(st, src, rs) == st
    decreases |rs|
  {
    if rs != [] {
      FinishedStays(st, src, rs[1..]);
    }
  }

  lemma StepAdvances(st: State, src: Source, r: Round)
    requires Inv(st, src) && !st.finished
    ensures Step(st, src, r).next == Min(|src.samples|, st.next + Granted(r))
  {
    FeedOrSignalKeeps(st, src, r);
    StepTracks(st, src, r);
  }

  /** A refused input buffer only delays: while the loop runs, the number of samples queued is
      the number of rounds in which there was a buffer, up to all samples. */
  lemma {:induction false} RetriesLoseNothing(st: State, src: Source, rs: seq<Round>)
    requires Inv(st, src) && !Run(st, src, rs).finished
    ensures var n := Run(st, src, rs).next;
            n <= st.next + Grants(rs) && (n < |src.samples| ==> n == st.next + Grants(rs))
    decreases |rs|
  {
    if rs != [] {
      var st1 := FirstRound(st, src, rs);
      RetriesLoseNothing(st1, src, rs[1..]);
    }
  }

  /** The state after the first round of a run in which the loop was not left. */
  lemma FirstRound(st: State, src: Source, rs: seq<Round>) returns (st1: State)
    requires Inv(st, src) && rs != [] && !Run(st, src, rs).finished
    ensures Inv(st1, src) && Run(st, src, rs) == Run(st1, src, rs[1..])
    ensures st1.next <= st.next + Granted(rs[0]) && (st1.next < |src.samples| ==> st1.next == st.next + Granted(rs[0]))
  {
    if st.finished {
      FinishedStays(st, src, rs);
    }
    st1 := Step(st, src, rs[0]);
    StepKeeps(st, src, rs[0]);
    StepAdvances(st, src, rs[0]);
  }

  // ----- Main results: what comes out -----

  function Replies(rs: seq<Round>, i: nat): seq<Reply> {
    if rs == [] then [] else [rs[0].reply(i)] + Replies(rs[1..], i)
  }

  /** The buffers among some answers, up to the one with the end mark. */
  function Heard(answers: seq<Reply>): seq<Reply> {
    if answers == [] then []
    else if !answers[0].Buffer? then Heard(answers[1..])
    else if answers[0].eos then [answers[0]]
    else [answers[0]] + Heard(answers[1..])
  }

  function HeardBy(t: Track, answers: seq<Reply>): seq<Reply> {
    t.released + if t.done then [] else Heard(answers)
  }

  lemma StepHeard(st: State, src: Source, r: Round, i: nat, later: seq<Reply>)
    requires Inv(st, src) && i < |st.tracks|
    ensures |Step(st, src, r).tracks| == |st.tracks|
    ensures HeardBy(Step(st, src, r).tracks[i], later) == HeardBy(st.tracks[i], [r.reply(i)] + later)
  {
    if !st.finished {
      FeedOrSignalKeeps(st, src, r);
      StepTracks(st, src, r);
      var t1 := FeedOrSignal(st, src, r).tracks[i];
      assert OnlyInput(st.tracks[i], t1);
      DrainedHeard(t1, r.reply(i), later);
    }
  }

  lemma DrainedHeard(t: Track, reply: Reply, later: seq<Reply>)
    ensures HeardBy(Drained(t, reply), later) == HeardBy(t, [reply] + later)
  {
    assert ([reply] + later)[1..] == later;
  }

  lemma {:induction false} RunHeard(st: State, src: Source, rs: seq<Round>, i: nat)
    requires Inv(st, src) && i < |st.tracks|
    ensures |Run(st, src, rs).tracks| == |st.tracks|
    ensures Run(st, src, rs).tracks[i].released == HeardBy(st.tracks[i], Replies(rs, i))
    decreases |rs|
  {
    if rs != [] {
      StepKeeps(st, src, rs[0]);
      RunHeard(Step(st, src, rs[0]), src, rs[1..], i);
      StepHeard(st, src, rs[0], i, Replies(rs[1..], i));
    }
  }

  /** Every output buffer a codec delivers is released once, in order, up to the one with the end
      mark, after which the codec is not asked again; the two counters agree with them. */
  lemma ReleasedExactly(keys: seq<nat>, src: Source, rs: seq<Round>, i: nat)
    requires Start(keys, src) && i < |keys|
    ensures Inv(Initial(keys), src)
    ensures var st := Run(Initial(keys), src, rs);
            && |st.tracks| == |keys|
            && st.tracks[i].released == Heard(Replies(rs, i))
            && st.tracks[i].buffers == |Heard(Replies(rs, i))|
            && st.tracks[i].bytes == Sizes(Heard(Replies(rs, i)))
  {
    InitialInv(keys, src);
    RunHeard(Initial(keys), src, rs, i);
    var st := Run(Initial(keys), src, rs);
    assert TrackRight(st, src, st.tracks[i]);
  }

  // ----- Main results: rendering times -----

  /** The anchor after some renders. */
  function AnchorAfter(renders: seq<Render>): int {
    if renders == [] then UNSET
    else
      var last := renders[|renders| - 1];
      Anchor(AnchorAfter(renders[..|renders| - 1]), last.timeUs, last.nowNs)
  }

  predicate RendersRight(st: State) {
    && st.anchor == AnchorAfter(st.renders)
    && forall k :: 0 <= k < |st.renders| ==>
         st.renders[k].atNs == st.renders[k].timeUs * 1000 + AnchorAt(st.renders, k)
  }

  /** The anchor a render used. */
  function AnchorAt(renders: seq<Render>, k: nat): int
    requires k < |renders|
  {
    AnchorAfter(renders[..k + 1])
  }

  lemma RenderedRight(st: State, timeUs: int, nowNs: int)
    requires RendersRight(st)
    ensures RendersRight(Rendered(st, timeUs, nowNs))
  {
    var st' := Rendered(st, timeUs, nowNs);
    var n := |st.renders|;
    assert st'.renders[..n] == st.renders && st'.renders[..n + 1] == st'.renders;
    forall k | 0 <= k < n ensures AnchorAt(st'.renders, k) == AnchorAt(st.renders, k) {
      assert st'.renders[..k + 1] == st.renders[..k + 1];
    }
  }

  lemma DrainOneRenders(st: State, src: Source, r: Round, i: nat)
    requires RendersRight(st) && i < |st.tracks|
    ensures RendersRight(DrainOne(st, src, r, i))
  {
    if r.reply(i).Buffer? {
      RenderedRight(st, r.reply(i).timeUs, r.nowNs(i));
    }
  }

  lemma {:induction false} DrainRenders(st: State, src: Source, r: Round, i: nat)
    requires RendersRight(st) && i <= |st.tracks|
    ensures RendersRight(DrainFrom(st, src, r, i))
    decreases |st.tracks| - i
  {
    if i < |st.tracks| {
      DrainOneRenders(st, src, r, i);
      DrainRenders(DrainOne(st, src, r, i), src, r, i + 1);
    }
  }

  lemma {:induction false} RunRenders(st: State, src: Source, rs: seq<Round>)
    requires Inv(st, src) && RendersRight(st)
    ensures RendersRight(Run(st, src, rs))
    decreases |rs|
  {
    if rs != [] {
      if !st.finished {
        DrainRenders(FeedOrSignal(st, src, rs[0]), src, rs[0], 0);
      }
      StepKeeps(st, src, rs[0]);
      RunRenders(Step(st, src, rs[0]), src, rs[1..]);
    }
  }

  /** What the anchor would be if this render set it. */
  function OwnAnchor(x: Render): int {
    x.nowNs + LEAD_NS - x.timeUs * 1000
  }

  /** All buffers are rendered with the same distance from their time stamps. */
  predicate EvenlySpaced(renders: seq<Render>) {
    forall k :: 0 <= k < |renders| ==>
      renders[k].atNs - renders[k].timeUs * 1000 == renders[0].atNs - renders[0].timeUs * 1000
  }

  lemma {:induction false} FirstAnchorStays(renders: seq<Render>)
    requires renders != [] && OwnAnchor(renders[0]) != UNSET
    ensures AnchorAfter(renders) == OwnAnchor(renders[0])
  {
    if |renders| > 1 {
      FirstAnchorStays(renders[..|renders| - 1]);
    } else {
      assert renders[..0] == [];
    }
  }

  /** While every render's own anchor is the one that means unset, it stays unset. */
  lemma {:induction false} UnsetStays(renders: seq<Render>)
    requires forall k :: 0 <= k < |renders| ==> OwnAnchor(renders[k]) == UNSET
    ensures AnchorAfter(renders) == UNSET
  {
    if renders != [] {
      UnsetStays(renders[..|renders| - 1]);
    }
  }

  lemma FirstAnchor(renders: seq<Render>)
    requires renders != []
    ensures AnchorAt(renders, 0) == OwnAnchor(renders[0])
  {
    var one := renders[..0 + 1];
    assert |one| == 1 && one[0] == renders[0] && one[..|one| - 1] == [];
    assert AnchorAfter([]) == UNSET;
    assert AnchorAfter(one) == Anchor(UNSET, renders[0].timeUs, renders[0].nowNs);
  }

  /** The value that means unset is also a possible anchor: the renders are evenly spaced exactly
      if the first one does not produce it, or all of them do. */
  lemma SpacedExactly(st: State)
    requires RendersRight(st) && st.renders != []
    ensures EvenlySpaced(st.renders)
       <==> OwnAnchor(st.renders[0]) != UNSET
            || forall k :: 0 <= k < |st.renders| ==> OwnAnchor(st.renders[k]) == UNSET
  {
    var rs := st.renders;
    FirstAnchor(rs);
    if OwnAnchor(rs[0]) != UNSET {
      forall k | 0 <= k < |rs| ensures AnchorAt(rs, k) == AnchorAt(rs, 0) {
        FirstAnchorStays(rs[..k + 1]);
      }
    } else if forall k :: 0 <= k < |rs| ==> OwnAnchor(rs[k]) == UNSET {
      forall k | 0 <= k < |rs| ensures AnchorAt(rs, k) == UNSET {
        UnsetStays(rs[..k + 1]);
      }
    } else {
      var k := FirstOther(rs);
      UnsetStays(rs[..k]);
      assert rs[..k + 1][..k] == rs[..k];
      assert AnchorAt(rs, k) == OwnAnchor(rs[k]);
    }
  }

  lemma {:induction false} FirstOther(rs: seq<Render>) returns (k: nat)
    requires exists j :: 0 <= j < |rs| && OwnAnchor(rs[j]) != UNSET
    ensures k < |rs| && OwnAnchor(rs[k]) != UNSET
    ensures forall j :: 0 <= j < k ==> OwnAnchor(rs[j]) == UNSET
  {
    k := 0;
    while OwnAnchor(rs[k]) == UNSET
      invariant k < |rs|
      invariant forall j :: 0 <= j < k ==> OwnAnchor(rs[j]) == UNSET
      decreases |rs| - k
    {
      k := k + 1;
    }
  }

  /** In every run: evenly spaced exactly under that condition, and the first buffer of any run
      is shown two frames after it was decoded. */
  lemma RenderTimes(keys: seq<nat>, src: Source, rs: seq<Round>)
    requires Start(keys, src)
    ensures Inv(Initial(keys), src)
    ensures var xs := Run(Initial(keys), src, rs).renders;
            xs != [] ==>
              && xs[0].atNs == xs[0].nowNs + LEAD_NS
              && (EvenlySpaced(xs)
                  <==> OwnAnchor(xs[0]) != UNSET
                       || forall k :: 0 <= k < |xs| ==> OwnAnchor(xs[k]) == UNSET)
  {
    InitialInv(keys, src);
    RunRenders(Initial(keys), src, rs);
    var st := Run(Initial(keys), src, rs);
    if st.renders != [] {
      SpacedExactly(st);
      FirstAnchor(st.renders);
    }
  }

  /** The answers of one codec: a buffer with a time stamp, at a time. */
  function OneBuffer(timeUs: int, nowNs: int): Round {
    Round(false, i => false, i => Buffer(0, 1, timeUs, false), i => nowNs)
  }

  lemma OneBufferRendered(st: State, src: Source, timeUs: int, nowNs: int)
    requires Inv(st, src) && src.timed && !st.finished && |st.tracks| == 1 && !st.tracks[0].done
    ensures var st' := Step(st, src, OneBuffer(timeUs, nowNs));
            && st'.renders == Rendered(st, timeUs, nowNs).renders && st'.anchor == Rendered(st, timeUs, nowNs).anchor
            && !st'.finished && |st'.tracks| == 1 && !st'.tracks[0].done
  {
    var r := OneBuffer(timeUs, nowNs);
    var st1 := FeedOrSignal(st, src, r);
    FeedOrSignalKeeps(st, src, r);
    assert OnlyInput(st.tracks[0], st1.tracks[0]);
    LeftExactly(st, src, r);
    var st2 := DrainOne(st1, src, r, 0);
    assert DrainFrom(st1, src, r, 0) == DrainFrom(st2, src, r, 1) == st2;
  }

  const STAMP_US := 1000033001
  const NOW_NS := 1000000000999

  lemma SecondAnchorDiffers(st: State, st1: State, st2: State)
    requires st.anchor == UNSET && st.renders == []
    requires st1.renders == Rendered(st, STAMP_US, NOW_NS).renders && st1.anchor == Rendered(st, STAMP_US, NOW_NS).anchor
    requires st2.renders == Rendered(st1, STAMP_US, NOW_NS + 1).renders
    ensures !EvenlySpaced(st2.renders)
  {
    assert st1.anchor == UNSET;
    assert st2.renders[0].atNs != st2.renders[1].atNs;
  }

  /** A first buffer stamped 1000.033001 s that is decoded 33.000001 ms before that gives the
      anchor -1; a second one, a nanosecond later, sets another. */
  lemma UnevenExample(src: Source, rs: seq<Round>)
    requires src == Source([], true)
    requires rs == [OneBuffer(STAMP_US, NOW_NS), OneBuffer(STAMP_US, NOW_NS + 1)]
    ensures Inv(Initial([0]), src)
    ensures !EvenlySpaced(Run(Initial([0]), src, rs).renders)
  {
    InitialInv([0], src);
    var st0 := Initial([0]);
    var st1 := Step(st0, src, rs[0]);
    OneBufferRendered(st0, src, STAMP_US, NOW_NS);
    assert rs[0..] == rs;
    RunFirst(st0, src, rs, 0);
    OneBufferRendered(st1, src, STAMP_US, NOW_NS + 1);
    assert rs[2..] == [];
    RunFirst(st1, src, rs, 1);
    SecondAnchorDiffers(st0, st1, Step(st1, src, rs[1]));
  }

  // ----- The code -----

  datatype Kind = Audio | Video | Other

  /** Track `i` is the first one of its kind. */
  predicate FirstOf(kinds: seq<Kind>, kind: Kind, i: nat) {
    i < |kinds| && kinds[i] == kind && forall j :: 0 <= j < i ==> kinds[j] != kind
  }

  predicate Wanted(kinds: seq<Kind>, useAudio: bool, useVideo: bool, i: nat) {
    (useAudio && FirstOf(kinds, Audio, i)) || (useVideo && FirstOf(kinds, Video, i))
  }

  /** The loop that selects the tracks: the first audio and the first video track, as wanted. */
  method SelectTracks(kinds: seq<Kind>, useAudio: bool, useVideo: bool) returns (keys: seq<nat>)
    ensures forall i, j :: 0 <= i < j < |keys| ==> keys[i] < keys[j]
    ensures forall i: nat :: i in keys <==> Wanted(kinds, useAudio, useVideo, i)
  {
    keys := [];
    var haveAudio, haveVideo := false, false;
    for i := 0 to |kinds|
      invariant forall k :: 0 <= k < |keys| ==> keys[k] < i
      invariant forall k, l :: 0 <= k < l < |keys| ==> keys[k] < keys[l]
      invariant forall k: nat :: k in keys <==> k < i && Wanted(kinds, useAudio, useVideo, k)
      invariant haveAudio <==> useAudio && exists j :: 0 <= j < i && kinds[j] == Audio
      invariant haveVideo <==> useVideo && exists j :: 0 <= j < i && kinds[j] == Video
    {
      if useAudio && !haveAudio && kinds[i] == Audio {
        haveAudio := true;
        keys := keys + [i];
      } else if useVideo && !haveVideo && kinds[i] == Video {
        haveVideo := true;
        keys := keys + [i];
      }
    }
  }

  class Decoder {
    const src: Source
    var tracks: seq<Track>
    var next: nat
    var sawInputEos: bool
    var anchor: int
    var renders: seq<Render>
    var finished: bool

    ghost function View(): State
      reads this
    {
      State(tracks, next, sawInputEos, anchor, renders, finished)
    }

    constructor (keys: seq<nat>, src: Source)
      ensures View() == Initial(keys) && this.src == src
    {
      this.src := src;
      tracks := NewTracks(keys);
      next, sawInputEos, anchor, renders, finished := 0, false, UNSET, [], false;
    }

    /** One sample, if the codec of its track has an input buffer. */
    method FeedSample(grant: bool)
      requires next <= |src.samples| && Selected(src.samples, Keys(tracks))
      modifies this`tracks, this`next, this`sawInputEos
      ensures View() == Feed(old(View()), src, grant)
    {
      if next == |src.samples| {
        sawInputEos := true;
      } else {
        var s := src.samples[next];
        var i := KeyIndex(Keys(tracks), s.track);
        if grant {
          tracks := tracks[i := Give(tracks[i], Data(s))];
          next := next + 1;
        }
      }
    }

    /** The loop that signals the end of the input. */
    method SignalEnd(r: Round)
      modifies this`tracks
      ensures View() == Signal(old(View()), r)
    {
      for i := 0 to |tracks|
        invariant |tracks| == old(|tracks|)
        invariant forall k :: 0 <= k < i ==> tracks[k] == SignalOne(old(tracks[k]), r.endGrant(k))
        invariant forall k :: i <= k < |tracks| ==> tracks[k] == old(tracks[k])
      {
        if !tracks[i].signalled {
          if r.endGrant(i) {
            tracks := tracks[i := Give(tracks[i], EndOfStream).(signalled := true)];
          }
        }
      }
      assert tracks == Signal(old(View()), r).tracks;
    }

    /** The loop that looks for a track whose output is not at the end. */
    method SawOutputEosOnAllTracks() returns (all: bool)
      ensures all <==> AllDone(tracks)
    {
      all := true;
      for i := 0 to |tracks|
        invariant all && forall k :: 0 <= k < i ==> tracks[k].done
      {
        if !tracks[i].done {
          all := false;
          break;
        }
      }
    }

    /** The loop that takes at most one output buffer from every codec. */
    method Drain(r: Round)
      modifies this`tracks, this`anchor, this`renders
      ensures View() == DrainFrom(old(View()), src, r, 0)
    {
      var i := 0;
      while i < |tracks|
        invariant i <= |tracks|
        invariant DrainFrom(View(), src, r, i) == DrainFrom(old(View()), src, r, 0)
      {
        ghost var before := View();
        DrainTrack(r, i);
        assert View() == DrainOne(before, src, r, i);
        i := i + 1;
      }
    }

    /** At most one output buffer of one codec. */
    method DrainTrack(r: Round, i: nat)
      requires i < |tracks|
      modifies this`tracks, this`anchor, this`renders
      ensures View() == DrainOne(old(View()), src, r, i)
    {
      var t := tracks[i];
      if t.done {
        assert tracks[i := t] == tracks;
        return;
      }
      match r.reply(i) {
        case Buffer(index, size, timeUs, eos) =>
          t := t.(buffers := t.buffers + 1, bytes := t.bytes + size);
          if src.timed {
            if anchor == UNSET {
              anchor := r.nowNs(i) + LEAD_NS - timeUs * 1000;
            }
            renders := renders + [Render(timeUs, r.nowNs(i), timeUs * 1000 + anchor)];
          }
          t := t.(released := t.released + [Buffer(index, size, timeUs, eos)]);
          if eos {
            t := t.(done := true);
          }
          tracks := tracks[i := t];
        case _ =>
          assert tracks[i := t] == tracks;
      }
    }

    /** The body of the loop. */
    method DoRound(r: Round)
      requires Inv(View(), src) && !finished
      modifies this
      ensures View() == Step(old(View()), src, r)
    {
      if !sawInputEos {
        FeedSample(r.grant);
      } else {
        SignalEnd(r);
      }
      var all := SawOutputEosOnAllTracks();
      if all {
        finished := true;
      } else {
        Drain(r);
      }
    }

    /** The loop of decode, for as many rounds as there are answers or until it is left. */
    method Decode(rounds: seq<Round>)
      requires Inv(View(), src)
      modifies this
      ensures Inv(View(), src) && View() == Run(old(View()), src, rounds)
    {
      var k := 0;
      while k < |rounds| && !finished
        invariant k <= |rounds| && Inv(View(), src)
        invariant Run(View(), src, rounds[k..]) == Run(old(View()), src, rounds)
      {
        RunFirst(View(), src, rounds, k);
        DoRound(rounds[k]);
        k := k + 1;
      }
      if finished {
        FinishedStays(View(), src, rounds[k..]);
      }
    }
  }
}
