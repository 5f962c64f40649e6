/**
 When the CHECK on the bytes written to an audio track (cmds/stagefright/SimplePlayer.cpp) cannot
 fail: buffers hold whole frames, and all audio tracks of a run have frames of one size.
 */
module PlayerFrames {
  import opened Arithmetic
  import opened PlayerTrack
  import opened Wrappers

  /** Audio tracks have frames of `d` bytes and buffers hold whole frames. */
  predicate WholeOutput(o: Output, d: nat)
    requires d > 0
  {
    && (o.Buffer? ==> o.info.size % d == 0)
    && (o.FormatChanged? && o.audio.Some? ==> o.audio.value.frameSize == d)
  }

  predicate WholeRound(r: Round, d: nat)
    requires d > 0
  {
    forall k :: 0 <= k < |r.outputs| ==> WholeOutput(r.outputs[k], d)
  }

  predicate WholeRun(rs: seq<Round>, d: nat)
    requires d > 0
  {
    forall r :: r in rs ==> WholeRound(r, d)
  }

  /** What is left of every waiting buffer is whole frames, and no CHECK has failed. */
  predicate Whole(t: Track, d: nat)
    requires d > 0
  {
    && !t.aborted
    && (t.audio.Some? ==> t.audio.value.frameSize == d)
    && forall j :: 0 <= j < |t.queue| ==> t.queue[j].size % d == 0
  }

  lemma {:induction false} DequeueWhole(t: Track, os: seq<Output>, d: nat)
    requires d > 0 && Whole(t, d)
    requires forall k :: 0 <= k < |os| ==> OutputOk(os[k]) && WholeOutput(os[k], d)
    ensures Whole(DequeueAll(t, os), d)
    decreases |os|
  {
    if os != [] {
      assert WholeOutput(os[0], d);
      DequeueWhole(Dequeue(t, os[0]), os[1..], d);
    }
  }

  lemma DifferenceMod(a: nat, b: nat, d: nat)
    requires d > 0 && b <= a && a % d == 0 && b % d == 0
    ensures (a - b) % d == 0
  {
    var p, q := a / d, b / d;
    assert a == p * d && b == q * d;
    assert p >= q by {
      assert p < q ==> p * d < q * d;
    }
    assert a - b == (p - q) * d;
    MultipleMod(p - q, d);
  }

  lemma RenderAudioWhole(t: Track, n: nat, d: nat)
    requires Ready(t) && AudioOk(t) && t.audio.Some? && d > 0 && Whole(t, d)
    ensures Whole(RenderAudio(t, n), d)
  {
    var a := Play(t.audio.value, n);
    var size := t.queue[0].size;
    var copy := Copy(t, a, size);
    MultipleMod(Available(t, a), d);
    assert copy % d == 0;
    DifferenceMod(size, copy, d);
  }

  lemma RenderHeadWhole(t: Track, now: int, start: int, n: nat, d: nat)
    requires Ready(t) && AudioOk(t) && d > 0 && Whole(t, d)
    ensures Whole(RenderHead(t, now, start, n).0, d)
  {
    if t.audio.Some? {
      RenderAudioWhole(t, n, d);
    }
  }

  lemma {:induction false} RenderAllWhole(t: Track, now: int, start: int, plays: seq<nat>, d: nat)
    requires Inv(t) && d > 0 && Whole(t, d)
    ensures Whole(RenderAll(t, now, start, plays), d)
    decreases |t.queue|
  {
    if t.queue != [] {
      HeadReady(t);
      RenderHeadKeeps(t, now, start, First(plays));
      RenderHeadWhole(t, now, start, First(plays), d);
      var (t1, more) := RenderHead(t, now, start, First(plays));
      if more {
        RenderAllWhole(t1, now, start, Later(plays), d);
      }
    }
  }

  lemma {:induction false} RunWhole(t: Track, rs: seq<Round>, d: nat)
    requires Inv(t) && RunOk(rs) && d > 0 && Whole(t, d) && WholeRun(rs, d)
    ensures Whole(AfterRounds(t, rs), d)
    decreases |rs|
  {
    if rs != [] {
      var r := rs[0];
      assert WholeRound(r, d) && RoundOk(r);
      DequeueAllKeeps(t, r.outputs);
      DequeueWhole(t, r.outputs, d);
      RenderAllWhole(DequeueAll(t, r.outputs), r.now, r.start, r.plays, d);
      RunWhole(DoRound(t, r), rs[1..], d);
    }
  }

  /** If all audio tracks of a run have frames of one size and all buffers hold whole frames, no
      CHECK fails, and every buffer of the run is handled first in, first out. */
  lemma WholeFramesNeverAbort(rs: seq<Round>, d: nat)
    requires RunOk(rs) && d > 0 && WholeRun(rs, d)
    ensures var t := AfterRounds(FRESH, rs);
            !t.aborted && HandledRight(Produced(rs), t)
  {
    RunWhole(FRESH, rs, d);
    AllInOrder(FRESH, rs);
  }

  /** A new audio track of some room and frame size, then perhaps a buffer, rendered on time. */
  function SimpleRound(frameCount: nat, frameSize: nat, buffers: seq<Output>): Round {
    Round([FormatChanged(Some(Sink(frameCount, frameSize, 0, 0)))] + buffers, 0, 0, [])
  }

  /** One size for all is needed: twelve bytes are whole frames of four and of six bytes, but
      once a frame of four is written the other eight are no frames of six. */
  lemma TwoSizesAbort(base: seq<Byte>)
    requires |base| == 12
    ensures var first := SimpleRound(1, 4, [Buffer(Info(0, 0, 12, 0, base))]);
            var second := SimpleRound(9, 6, []);
            RunOk([first, second]) && AfterRounds(FRESH, [first, second]).aborted
  {
    var buffer := Buffer(Info(0, 0, 12, 0, base));
    var first, second := SimpleRound(1, 4, [buffer]), SimpleRound(9, 6, []);
    var t1 := PartWritten(base, buffer, first);
    EightOfSix(t1, base, second);
    TwoRounds(FRESH, first, second);
  }

  lemma TwoRounds(t: Track, first: Round, second: Round)
    requires Inv(t) && RoundOk(first) && RoundOk(second) && !t.aborted && !DoRound(t, first).aborted
    ensures RunOk([first, second])
    ensures AfterRounds(t, [first, second]) == DoRound(DoRound(t, first), second)
  {
    var t1, rs := DoRound(t, first), [first, second];
    assert rs[1..] == [second] && [second][1..] == [];
    assert AfterRounds(t1, [second]) == AfterRounds(DoRound(t1, second), []);
  }

  lemma EightOfSix(t: Track, base: seq<Byte>, r: Round)
    requires Inv(t) && !t.aborted && |base| == 12
    requires t.queue == [Info(0, 4, 8, 0, base)] && r == SimpleRound(9, 6, [])
    ensures RoundOk(r) && DoRound(t, r).aborted
  {
    var m := DequeueAll(t, r.outputs);
    var o := r.outputs[0];
    assert r.outputs == [o] && r.outputs[1..] == [] && OutputOk(o);
    assert m == DequeueAll(Dequeue(t, o), []) == Dequeue(t, o);
    DequeueAllKeeps(t, r.outputs);
    AbortsExactly(m, 0);
  }

  lemma PartWritten(base: seq<Byte>, buffer: Output, r: Round) returns (t: Track)
    requires |base| == 12 && buffer == Buffer(Info(0, 0, 12, 0, base)) && r == SimpleRound(1, 4, [buffer])
    ensures RoundOk(r) && t == DoRound(FRESH, r)
    ensures Inv(t) && !t.aborted && t.queue == [Info(0, 4, 8, 0, base)]
  {
    t := DoRound(FRESH, r);
    var m := DequeueAll(FRESH, r.outputs);
    TrackThenBuffer(r.outputs, buffer);
    DequeueAllKeeps(FRESH, r.outputs);
    HeadReady(m);
    FourOfTwelve(m, base);
    assert RenderHead(m, 0, 0, 0) == (RenderAudio(m, 0), false);
  }

  lemma TrackThenBuffer(os: seq<Output>, buffer: Output)
    requires |os| == 2 && os[0].FormatChanged? && os[0].audio.Some? && os[1] == buffer && buffer.Buffer?
    requires OutputOk(os[0]) && OutputOk(os[1])
    ensures var m := DequeueAll(FRESH, os);
            m.queue == [buffer.info] && m.audio == os[0].audio && m.counter == 0 && !m.aborted
  {
    assert os[1..] == [buffer] && [buffer][1..] == [];
    assert DequeueAll(FRESH, os) == DequeueAll(Dequeue(FRESH, os[0]), [buffer])
        == Dequeue(Dequeue(FRESH, os[0]), buffer);
  }

  lemma FourOfTwelve(m: Track, base: seq<Byte>)
    requires Ready(m) && AudioOk(m) && !m.aborted && |base| == 12
    requires m.queue == [Info(0, 0, 12, 0, base)] && m.audio == Some(Sink(1, 4, 0, 0))
    ensures var t := RenderAudio(m, 0); t.queue == [Info(0, 4, 8, 0, base)] && !t.aborted
  {
    AvailableExact(m, Play(m.audio.value, 0));
  }
}
