/**
 When a buffer of the simple player (cmds/stagefright/SimplePlayer.cpp) is kept, dropped, shown or
 played: what the render loop makes of the time stamps.
 */
module PlayerTiming {
  import opened Arithmetic
  import opened PlayerTrack
  import opened Wrappers

  /** How late a time stamp is, in microseconds. */
  function LateBy(timeUs: int, now: int, start: int): int {
    now - (timeUs + start)
  }

  predicate Early(timeUs: int, now: int, start: int) {
    LateBy(timeUs, now, start) <= -10000
  }

  predicate Overdue(timeUs: int, now: int, start: int) {
    LateBy(timeUs, now, start) > 30000
  }

  /** A first buffer that is early stays, with everything behind it. */
  lemma EarlyStays(t: Track, now: int, start: int, plays: seq<nat>)
    requires Inv(t) && t.queue != [] && Early(t.queue[0].timeUs, now, start)
    ensures RenderAll(t, now, start, plays) == t
  {
    HeadReady(t);
  }

  /** What became of a buffer that was handed back in a round: it was not early; it was dropped
      exactly if it was overdue; otherwise it was played if there was an audio track, and shown if
      there was none. */
  predicate FateRight(s: Slot, now: int, start: int, sound: bool) {
    && !Early(s.timeUs, now, start)
    && (s.fate.Late? <==> Overdue(s.timeUs, now, start))
    && (s.fate.Played? <==> !Overdue(s.timeUs, now, start) && sound)
    && (s.fate.Shown? <==> !Overdue(s.timeUs, now, start) && !sound)
  }

  predicate FatesRight(slots: seq<Slot>, now: int, start: int, sound: bool) {
    forall k :: 0 <= k < |slots| ==> FateRight(slots[k], now, start, sound)
  }

  /** All of an audio track's room is used. */
  predicate Full(audio: Option<Sink>) {
    audio.Some? && audio.value.written - audio.value.played == audio.value.frameCount
  }

  /** Why a buffer still heads the list: it is early, or the audio track is full and has not taken
      all of it. */
  predicate HeadRight(t: Track, now: int, start: int) {
    t.queue == [] || t.aborted
    || Early(t.queue[0].timeUs, now, start)
    || (!Overdue(t.queue[0].timeUs, now, start) && Full(t.audio) && t.queue[0].size > 0)
  }

  // ----- One buffer -----

  /** The audio track takes as much of a buffer as fits, in whole frames. */
  lemma WritesWhatFits(t: Track, n: nat)
    requires Inv(t) && t.queue != [] && t.audio.Some? && !t.aborted
    ensures Ready(t)
    ensures var r, a := RenderAudio(t, n), Play(t.audio.value, n);
            var free := a.frameCount - (a.written - a.played);
            && |r.queue| == |t.queue| && r.queue[1..] == t.queue[1..] && r.audio.Some?
            && r.queue[0].timeUs == t.queue[0].timeUs
            && r.audio.value.played == a.played
            && (!r.aborted ==>
                  && r.queue[0].size == t.queue[0].size - Min(t.queue[0].size, free * a.frameSize)
                  && r.audio.value.written * a.frameSize
                     == a.written * a.frameSize + Min(t.queue[0].size, free * a.frameSize)
                  && r.audio.value.frameSize == a.frameSize && r.audio.value.frameCount == a.frameCount)
  {
    HeadReady(t);
    var a := Play(t.audio.value, n);
    AvailableExact(t, a);
    var copy := Copy(t, a, t.queue[0].size);
    if copy % a.frameSize == 0 {
      Frames(a.written, copy, a.frameSize);
    }
  }

  lemma Frames(w: nat, c: nat, d: nat)
    requires d > 0 && c % d == 0
    ensures (w + c / d) * d == w * d + c
  {
    assert c == c / d * d;
  }

  lemma LeftOverMeansFull(t: Track, n: nat)
    requires Inv(t) && t.queue != [] && t.audio.Some? && !t.aborted
    ensures Ready(t)
    ensures var r := RenderAudio(t, n);
            !r.aborted && |r.queue| > 0 && r.queue[0].size > 0 ==> Full(r.audio)
  {
    WritesWhatFits(t, n);
    var r, a := RenderAudio(t, n), Play(t.audio.value, n);
    if !r.aborted && r.queue[0].size > 0 {
      AllRoomUsed(r.audio.value.written, a.written, a.frameCount - (a.written - a.played), t.queue[0].size, a.frameSize);
    }
  }

  lemma AllRoomUsed(after: nat, before: nat, free: nat, size: nat, d: nat)
    requires d > 0 && size > Min(size, free * d) && after * d == before * d + Min(size, free * d)
    ensures after == before + free
  {
    assert (before + free) * d == before * d + free * d;
    Cancel(after, before + free, d);
  }

  lemma Cancel(x: nat, y: nat, d: nat)
    requires d > 0 && x * d == y * d
    ensures x == y
  {
    assert x < y ==> x * d < y * d;
    assert y < x ==> y * d < x * d;
  }

  /** One iteration: the head is handed back with its fate, or the loop ends for a reason. */
  lemma HeadFate(t: Track, now: int, start: int, n: nat)
    requires Inv(t) && t.queue != [] && !t.aborted
    ensures Ready(t)
    ensures var (r, more) := RenderHead(t, now, start, n);
            var k := HeadSlot(t);
            && |r.slots| == |t.slots| && r.slots[..k] == t.slots[..k] && (r.audio.Some? <==> t.audio.Some?)
            && (more ==> HeadSlot(r) == k + 1 && !r.aborted && FateRight(r.slots[k], now, start, t.audio.Some?))
            && (!more ==> HeadSlot(r) == k && HeadRight(r, now, start))
  {
    HeadReady(t);
    assert Matches(t.queue[0], t.slots[HeadSlot(t)]);
    if t.audio.Some? {
      WritesWhatFits(t, n);
      LeftOverMeansFull(t, n);
      RenderAudioSlots(t, n);
    }
  }

  lemma RenderAudioSlots(t: Track, n: nat)
    requires Ready(t) && t.audio.Some? && SinkOk(t.audio.value)
    ensures var r, k := RenderAudio(t, n), HeadSlot(t);
            && |r.slots| == |t.slots| && HeadSlot(r) == k && r.slots[..k] == t.slots[..k]
            && r.slots[k].timeUs == t.slots[k].timeUs
  {
  }

  // ----- The loop -----

  /** Over the render loop: the buffers handed back in it have the fates that their time stamps
      give them; what was handed back before stays as it was; and there is a reason why the loop
      ended. */
  lemma {:induction false} FatesExactly(t: Track, now: int, start: int, plays: seq<nat>)
    requires Inv(t) && !t.aborted
    ensures var r := RenderAll(t, now, start, plays);
            && |r.slots| == |t.slots| && 0 <= HeadSlot(t) <= HeadSlot(r) <= |r.slots|
            && r.slots[..HeadSlot(t)] == t.slots[..HeadSlot(t)]
            && FatesRight(r.slots[HeadSlot(t)..HeadSlot(r)], now, start, t.audio.Some?)
            && HeadRight(r, now, start)
    decreases |t.queue|
  {
    if t.queue != [] {
      HeadReady(t);
      RenderHeadKeeps(t, now, start, First(plays));
      HeadFate(t, now, start, First(plays));
      var (t1, more) := RenderHead(t, now, start, First(plays));
      if more {
        FatesExactly(t1, now, start, Later(plays));
        OneMoreFate(t, t1, RenderAll(t1, now, start, Later(plays)), now, start);
      }
    }
  }

  lemma OneMoreFate(t: Track, t1: Track, r: Track, now: int, start: int)
    requires |t.slots| == |t1.slots| == |r.slots|
    requires 0 <= HeadSlot(t) && HeadSlot(t1) == HeadSlot(t) + 1 <= HeadSlot(r) <= |r.slots|
    requires t1.slots[..HeadSlot(t)] == t.slots[..HeadSlot(t)] && r.slots[..HeadSlot(t1)] == t1.slots[..HeadSlot(t1)]
    requires FateRight(t1.slots[HeadSlot(t)], now, start, t.audio.Some?)
    requires FatesRight(r.slots[HeadSlot(t1)..HeadSlot(r)], now, start, t.audio.Some?)
    ensures r.slots[..HeadSlot(t)] == t.slots[..HeadSlot(t)]
    ensures FatesRight(r.slots[HeadSlot(t)..HeadSlot(r)], now, start, t.audio.Some?)
  {
    var k, m := HeadSlot(t), HeadSlot(r);
    assert r.slots[..k] == r.slots[..k + 1][..k] == t1.slots[..k + 1][..k];
    assert r.slots[k] == r.slots[..k + 1][k] == t1.slots[k];
    assert r.slots[k..m] == [r.slots[k]] + r.slots[k + 1..m];
  }

  /** Over a whole round of work on a track, with what its codec puts out in it. */
  lemma RoundFates(t: Track, round: Round)
    requires Inv(t) && RoundOk(round) && !t.aborted
    ensures var m, r, now, start := DequeueAll(t, round.outputs), DoRound(t, round), round.now, round.start;
            && |r.slots| == |m.slots| && 0 <= HeadSlot(m) <= HeadSlot(r) <= |r.slots|
            && r.slots[..HeadSlot(m)] == m.slots[..HeadSlot(m)]
            && FatesRight(r.slots[HeadSlot(m)..HeadSlot(r)], now, start, m.audio.Some?)
            && HeadRight(r, now, start)
  {
    DequeueAllKeeps(t, round.outputs);
    DequeueLives(t, round.outputs);
    FatesExactly(DequeueAll(t, round.outputs), round.now, round.start, round.plays);
  }

  /** Taking what a codec puts out: the buffers queue up, and the audio track is the last one that
      was made, if one was. */
  lemma {:induction false} DequeueLives(t: Track, os: seq<Output>)
    requires forall k :: 0 <= k < |os| ==> OutputOk(os[k])
    ensures var r := DequeueAll(t, os);
            r.aborted == t.aborted && r.queue == t.queue + Buffers(os) && r.audio == LastAudio(t.audio, os)
    decreases |os|
  {
    if os == [] {
      assert t.queue + [] == t.queue;
    } else {
      DequeueLives(Dequeue(t, os[0]), os[1..]);
      Reassociate(t.queue, if os[0].Buffer? then [os[0].info] else [], Buffers(os[1..]));
    }
  }

  function LastAudio(audio: Option<Sink>, os: seq<Output>): Option<Sink>
    decreases |os|
  {
    if os == [] then audio
    else LastAudio(if os[0].FormatChanged? && os[0].audio.Some? then os[0].audio else audio, os[1..])
  }
}
