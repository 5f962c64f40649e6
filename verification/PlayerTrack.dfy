/**
 One track of the simple player (cmds/stagefright/SimplePlayer.cpp): the list of output
 buffers waiting to be rendered, and the audio track they are written to.
 */
module PlayerTrack {
  import opened Arithmetic
  import opened Wrappers

  /** An entry of mAvailOutputBufferInfos; `base` is the content of the codec's buffer. */
  datatype Info = Info(index: nat, offset: nat, size: nat, timeUs: int, base: seq<Byte>)

  /** An AudioTrack, with its true frame counts. */
  datatype Sink = Sink(frameCount: nat, frameSize: nat, written: nat, played: nat)

  /** What became of a buffer. */
  datatype Fate = Waiting | Late | Played | Shown

  /** What happened so far to one dequeued output buffer: `done` bytes of it were written. */
  datatype Slot = Slot(index: nat, timeUs: int, payload: seq<Byte>, done: nat, fate: Fate)

  datatype Track = Track(
    queue: seq<Info>,            // mAvailOutputBufferInfos
    audio: Option<Sink>,         // mAudioTrack
    counter: nat,                // mNumFramesWritten, in 32 bits
    aborted: bool,               // the CHECK on the number of bytes written failed
    slots: seq<Slot>,            // every buffer dequeued so far, in order
    handedBack: seq<nat>,        // the codec's log of buffers it got back
    log: seq<Byte>)              // every byte written to an audio track so far

  const FRESH := Track([], None, 0, false, [], [], [])

  /** What dequeueOutputBuffer answers, other than that there is nothing to dequeue. */
  datatype Output =
    | Buffer(info: Info)
    | FormatChanged(audio: Option<Sink>)
    | BuffersChanged

  /** The contracts of the codec and of a new AudioTrack. */
  predicate OutputOk(o: Output) {
    && (o.Buffer? ==> o.info.offset + o.info.size <= |o.info.base|)
    && (o.FormatChanged? && o.audio.Some? ==> SinkOk(o.audio.value) && o.audio.value.written == 0)
  }

  predicate SinkOk(a: Sink) {
    && 0 < a.frameSize
    && a.played <= a.written
    && a.written - a.played <= a.frameCount < WORD
  }

  // ----- Dequeuing -----

  function NewSlot(info: Info): Slot
    requires info.offset + info.size <= |info.base|
  {
    Slot(info.index, info.timeUs, Rest(info), 0, Waiting)
  }

  /** The bytes of a buffer that are still to be rendered. */
  function Rest(info: Info): seq<Byte>
    requires info.offset + info.size <= |info.base|
  {
    info.base[info.offset..info.offset + info.size]
  }

  function Dequeue(t: Track, o: Output): Track
    requires OutputOk(o)
  {
    match o
    case Buffer(info) => t.(queue := t.queue + [info], slots := t.slots + [NewSlot(info)])
    case FormatChanged(audio) => if audio.None? then t else t.(audio := audio, counter := 0)
    case BuffersChanged => t
  }

  function DequeueAll(t: Track, os: seq<Output>): Track
    requires forall k :: 0 <= k < |os| ==> OutputOk(os[k])
    decreases |os|
  {
    if os == [] then t else DequeueAll(Dequeue(t, os[0]), os[1..])
  }

  // ----- Rendering -----

  /** The AudioTrack plays `n` more frames, or all it has. */
  function Play(a: Sink, n: nat): Sink
    requires a.played <= a.written
  {
    a.(played := Min(a.written, a.played + n))
  }

  /** numFramesAvailableToWrite, in 32-bit arithmetic. */
  function Available(t: Track, a: Sink): nat {
    (a.frameCount - (t.counter - a.played % WORD) % WORD) % WORD
  }

  function Copy(t: Track, a: Sink, size: nat): (copy: nat)
    ensures copy <= size
  {
    Min(size, Available(t, a) * a.frameSize)
  }

  function HeadSlot(t: Track): int {
    |t.slots| - |t.queue|
  }

  /** `copy` bytes of the first buffer, which are `frames` frames, go to the audio track. */
  function Push(t: Track, a: Sink, copy: nat, frames: nat): (r: Track)
    requires Ready(t) && copy <= t.queue[0].size
    ensures Ready(r) && |r.queue| == |t.queue|
  {
    var info := t.queue[0];
    var k := HeadSlot(t);
    t.(audio := Some(a.(written := a.written + frames)),
       counter := (t.counter + frames) % WORD,
       queue := t.queue[0 := info.(offset := info.offset + copy, size := info.size - copy)],
       slots := t.slots[k := t.slots[k].(done := t.slots[k].done + copy)],
       log := t.log + info.base[info.offset..info.offset + copy])
  }

  /** renderAudio, for the first buffer of the list; AudioTrack::write takes whole frames. */
  function RenderAudio(t: Track, n: nat): (r: Track)
    requires Ready(t) && t.audio.Some? && SinkOk(t.audio.value)
    ensures Ready(r) && |r.queue| == |t.queue|
  {
    var a := Play(t.audio.value, n);
    var copy := Copy(t, a, t.queue[0].size);
    if copy == 0 then t.(audio := Some(a))
    else if copy % a.frameSize != 0 then t.(audio := Some(a), aborted := true)
    else Push(t, a, copy, copy / a.frameSize)
  }

  /** The first buffer goes back to the codec and leaves the list. */
  function Retire(t: Track, fate: Fate): Track
    requires Ready(t)
  {
    var k := HeadSlot(t);
    t.(queue := t.queue[1..],
       slots := t.slots[k := t.slots[k].(fate := fate)],
       handedBack := t.handedBack + [t.queue[0].index])
  }

  /** There is a buffer to render, and its range lies inside it. */
  predicate Ready(t: Track) {
    && t.queue != []
    && |t.queue| <= |t.slots|
    && t.queue[0].offset + t.queue[0].size <= |t.queue[0].base|
  }

  /** One iteration of the render loop: the new track, and whether the loop goes on. */
  function RenderHead(t: Track, now: int, start: int, n: nat): (r: (Track, bool))
    requires Ready(t) && AudioOk(t)
    ensures r.1 ==> |r.0.queue| < |t.queue|
  {
    var lateBy := now - (t.queue[0].timeUs + start);
    if lateBy <= -10000 then (t, false)
    else if lateBy > 30000 then (Retire(t, Late), true)
    else if t.audio.None? then (Retire(t, Shown), true)
    else
      var t1 := RenderAudio(t, n);
      if t1.aborted || t1.queue[0].size > 0 then (t1, false) else (Retire(t1, Played), true)
  }

  function First(plays: seq<nat>): nat {
    if plays == [] then 0 else plays[0]
  }

  function Later(plays: seq<nat>): seq<nat> {
    if plays == [] then [] else plays[1..]
  }

  /** The render loop; `plays` says how much the AudioTrack plays before each look at it. */
  function RenderAll(t: Track, now: int, start: int, plays: seq<nat>): Track
    requires Inv(t)
    decreases |t.queue|
  {
    if t.queue == [] then t
    else
      HeadReady(t);
      var (t1, more) := RenderHead(t, now, start, First(plays));
      RenderHeadKeeps(t, now, start, First(plays));
      if more then RenderAll(t1, now, start, Later(plays)) else t1
  }

  // ----- The invariant -----

  /** The bytes written so far, buffer by buffer. */
  function Written(slots: seq<Slot>): seq<Byte> {
    if slots == [] then [] else Written(slots[..|slots| - 1]) + Prefix(slots[|slots| - 1])
  }

  function Prefix(s: Slot): seq<Byte> {
    s.payload[..Min(s.done, |s.payload|)]
  }

  predicate SlotOk(s: Slot) {
    && s.done <= |s.payload|
    && (s.fate.Played? ==> s.done == |s.payload|)
    && (s.fate.Shown? ==> s.done == 0)
  }

  /** A buffer in the list is what its slot says: the slot's payload from `done` on. */
  predicate Matches(info: Info, s: Slot) {
    && s.fate == Waiting
    && info.index == s.index && info.timeUs == s.timeUs
    && info.offset + info.size <= |info.base|
    && s.done <= |s.payload|
    && Rest(info) == s.payload[s.done..]
  }

  predicate SlotsOk(t: Track) {
    && |t.queue| <= |t.slots|
    && (forall s :: s in t.slots ==> SlotOk(s))
    && (forall i :: 0 <= i < HeadSlot(t) ==> !t.slots[i].fate.Waiting?)
    && (forall j :: 0 <= j < |t.queue| ==> Matches(t.queue[j], t.slots[HeadSlot(t) + j]))
    && (forall i :: HeadSlot(t) < i < |t.slots| ==> t.slots[i].done == 0)
    // without an audio track nothing was written
    && (t.audio.None? ==> forall s :: s in t.slots ==> s.done == 0)
  }

  /** Buffers went back in the order in which they came, each one once. */
  predicate HandedBackOk(t: Track) {
    && |t.queue| <= |t.slots|
    && |t.handedBack| == HeadSlot(t)
    && forall i :: 0 <= i < HeadSlot(t) ==> t.handedBack[i] == t.slots[i].index
  }

  predicate AudioOk(t: Track) {
    t.audio.Some? ==> SinkOk(t.audio.value) && t.counter == t.audio.value.written % WORD
  }

  predicate Inv(t: Track) {
    SlotsOk(t) && HandedBackOk(t) && AudioOk(t) && t.log == Written(t.slots)
  }

  lemma FreshInv()
    ensures Inv(FRESH)
  {
  }

  lemma HeadReady(t: Track)
    requires Inv(t) && t.queue != []
    ensures Ready(t)
  {
    assert Matches(t.queue[0], t.slots[HeadSlot(t)]);
  }

  // ----- The free space -----

  lemma WrapDifference(w: nat, p: nat)
    requires p <= w < p + WORD
    ensures (w % WORD - p % WORD) % WORD == w - p
  {
    var a, b := w / WORD, p / WORD;
    assert w == WORD * a + w % WORD && p == WORD * b + p % WORD;
    assert a == b || a == b + 1;
  }

  /** The wrapping subtraction never underflows: it is the exact amount of free space. */
  lemma AvailableExact(t: Track, a: Sink)
    requires SinkOk(a) && t.counter == a.written % WORD
    ensures Available(t, a) == a.frameCount - (a.written - a.played)
  {
    WrapDifference(a.written, a.played);
  }

  /** Writing what the code decides to write never overfills the audio track. */
  lemma RenderFits(t: Track, n: nat)
    requires Ready(t) && t.audio.Some? && AudioOk(t)
    ensures AudioOk(RenderAudio(t, n))
    ensures RenderAudio(t, n).audio.Some?
  {
    var a := Play(t.audio.value, n);
    AvailableExact(t, a);
    var copy := Copy(t, a, t.queue[0].size);
    if copy != 0 && copy % a.frameSize == 0 {
      QuotientBound(copy, a.frameSize, Available(t, a));
      SinkTakes(a, copy / a.frameSize);
    }
  }

  lemma SinkTakes(a: Sink, frames: nat)
    requires SinkOk(a) && frames <= a.frameCount - (a.written - a.played)
    ensures SinkOk(a.(written := a.written + frames))
    ensures (a.written % WORD + frames) % WORD == (a.written + frames) % WORD
  {
    WrapAdd(a.written, frames);
  }

  lemma QuotientBound(c: nat, d: nat, m: nat)
    requires 0 < d && c <= m * d && c % d == 0
    ensures c / d <= m
  {
    var q := c / d;
    assert c == q * d;
    assert q > m ==> q * d > m * d;
  }

  lemma WrapAdd(a: nat, b: nat)
    ensures (a % WORD + b) % WORD == (a + b) % WORD
  {
    var q := a / WORD;
    assert a == WORD * q + a % WORD;
    assert a + b == WORD * q + (a % WORD + b);
  }

  // ----- Every step keeps the invariant -----

  lemma {:induction false} WrittenAppend(a: seq<Slot>, b: seq<Slot>)
    ensures Written(a + b) == Written(a) + Written(b)
  {
    if b == [] {
      assert a + b == a;
    } else {
      var ab, front, last := a + b, b[..|b| - 1], b[|b| - 1];
      assert ab[..|ab| - 1] == a + front && ab[|ab| - 1] == last;
      WrittenAppend(a, front);
      Reassociate(Written(a), Written(front), Prefix(last));
    }
  }

  lemma {:induction false} WrittenNothing(b: seq<Slot>)
    requires forall i :: 0 <= i < |b| ==> b[i].done == 0
    ensures Written(b) == []
  {
    if b != [] {
      WrittenNothing(b[..|b| - 1]);
    }
  }

  lemma WrittenLast(a: seq<Slot>, s: Slot)
    ensures Written(a + [s]) == Written(a) + Prefix(s)
  {
    assert (a + [s])[..|a|] == a;
  }

  lemma WrittenThree(a: seq<Slot>, s: Slot, c: seq<Slot>)
    ensures Written((a + [s]) + c) == Written(a) + Prefix(s) + Written(c)
  {
    WrittenAppend(a + [s], c);
    WrittenLast(a, s);
  }

  lemma SplitAt(a: seq<Slot>, k: nat)
    requires k < |a|
    ensures a == (a[..k] + [a[k]]) + a[k + 1..]
  {
  }

  lemma WrittenSplit(a: seq<Slot>, k: nat)
    requires k < |a|
    ensures Written(a) == Written(a[..k]) + Prefix(a[k]) + Written(a[k + 1..])
  {
    var front, s, behind := a[..k], a[k], a[k + 1..];
    WrittenThree(front, s, behind);
    SplitAt(a, k);
  }

  lemma WrittenSame(a: seq<Slot>, k: nat, s: Slot)
    requires k < |a| && Prefix(s) == Prefix(a[k])
    ensures Written(a[k := s]) == Written(a)
  {
    WrittenSplit(a, k);
    WrittenSplit(a[k := s], k);
    assert a[k := s][..k] == a[..k] && a[k := s][k + 1..] == a[k + 1..];
  }

  /** Nothing was written behind slot `k`. */
  lemma WrittenTo(a: seq<Slot>, k: nat)
    requires k < |a| && forall i :: k < i < |a| ==> a[i].done == 0
    ensures Written(a) == Written(a[..k]) + Prefix(a[k])
  {
    WrittenSplit(a, k);
    WrittenNothing(a[k + 1..]);
  }

  lemma PrefixGrows(was: Slot, s: Slot)
    requires s.payload == was.payload && was.done <= s.done <= |s.payload|
    ensures Prefix(s) == Prefix(was) + s.payload[was.done..s.done]
  {
  }

  /** More of the first waiting buffer was written, none of the later ones. */
  lemma WrittenMore(a: seq<Slot>, k: nat, s: Slot)
    requires k < |a| && s.payload == a[k].payload && a[k].done <= s.done <= |s.payload|
    requires forall i :: k < i < |a| ==> a[i].done == 0
    ensures Written(a[k := s]) == Written(a) + s.payload[a[k].done..s.done]
  {
    WrittenTo(a, k);
    WrittenTo(a[k := s], k);
    assert a[k := s][..k] == a[..k];
    PrefixGrows(a[k], s);
  }

  /** A buffer at the end of the list. */
  lemma BufferSlots(t: Track, info: Info)
    requires SlotsOk(t) && OutputOk(Buffer(info))
    ensures SlotsOk(Dequeue(t, Buffer(info)))
  {
    var r := Dequeue(t, Buffer(info));
    assert HeadSlot(r) == HeadSlot(t);
    forall j | 0 <= j < |r.queue| ensures Matches(r.queue[j], r.slots[HeadSlot(r) + j]) {
      if j < |t.queue| {
        assert Matches(t.queue[j], t.slots[HeadSlot(t) + j]);
      } else {
        assert NewSlot(info).payload[0..] == Rest(info);
      }
    }
    forall i | 0 <= i < |r.slots| ensures SlotOk(r.slots[i]) {
      assert i < |t.slots| ==> t.slots[i] in t.slots;
    }
  }

  lemma BufferLog(t: Track, info: Info)
    requires t.log == Written(t.slots) && OutputOk(Buffer(info))
    ensures Dequeue(t, Buffer(info)).log == Written(Dequeue(t, Buffer(info)).slots)
  {
    WrittenAppend(t.slots, [NewSlot(info)]);
    WrittenNothing([NewSlot(info)]);
    assert Written(t.slots) + [] == Written(t.slots);
  }

  lemma BufferKeeps(t: Track, info: Info)
    requires Inv(t) && OutputOk(Buffer(info))
    ensures Inv(Dequeue(t, Buffer(info)))
  {
    BufferSlots(t, info);
    BufferLog(t, info);
  }

  lemma DequeueKeeps(t: Track, o: Output)
    requires Inv(t) && OutputOk(o)
    ensures Inv(Dequeue(t, o))
  {
    if o.Buffer? {
      BufferKeeps(t, o.info);
    }
  }

  lemma {:induction false} DequeueAllKeeps(t: Track, os: seq<Output>)
    requires Inv(t)
    requires forall k :: 0 <= k < |os| ==> OutputOk(os[k])
    ensures Inv(DequeueAll(t, os))
    decreases |os|
  {
    if os != [] {
      DequeueKeeps(t, os[0]);
      DequeueAllKeeps(Dequeue(t, os[0]), os[1..]);
    }
  }

  lemma RetireMatches(t: Track, fate: Fate)
    requires SlotsOk(t) && Ready(t)
    ensures var r := Retire(t, fate);
            forall j :: 0 <= j < |r.queue| ==> Matches(r.queue[j], r.slots[HeadSlot(r) + j])
  {
    var r, k := Retire(t, fate), HeadSlot(t);
    forall j | 0 <= j < |r.queue| ensures Matches(r.queue[j], r.slots[HeadSlot(r) + j]) {
      assert Matches(t.queue[j + 1], t.slots[k + (j + 1)]);
    }
  }

  lemma RetireSlots(t: Track, fate: Fate)
    requires SlotsOk(t) && Ready(t) && !fate.Waiting?
    requires fate.Played? ==> t.queue[0].size == 0
    requires fate.Shown? ==> t.audio.None?
    ensures SlotsOk(Retire(t, fate))
  {
    var r, k := Retire(t, fate), HeadSlot(t);
    RetireMatches(t, fate);
    assert Matches(t.queue[0], t.slots[k]);
    assert SlotOk(t.slots[k]);
    assert fate.Played? ==> |t.slots[k].payload[t.slots[k].done..]| == 0;
    assert SlotOk(r.slots[k]);
  }

  lemma RetireKeeps(t: Track, fate: Fate)
    requires Inv(t) && t.queue != [] && !fate.Waiting?
    requires fate.Played? ==> t.queue[0].size == 0
    requires fate.Shown? ==> t.audio.None?
    ensures Ready(t)
    ensures Inv(Retire(t, fate))
  {
    HeadReady(t);
    var k, r := HeadSlot(t), Retire(t, fate);
    RetireSlots(t, fate);
    WrittenSame(t.slots, k, r.slots[k]);
  }

  lemma PushMatches(t: Track, a: Sink, copy: nat, frames: nat)
    requires SlotsOk(t) && Ready(t) && copy <= t.queue[0].size
    ensures var r := Push(t, a, copy, frames);
            forall j :: 0 <= j < |r.queue| ==> Matches(r.queue[j], r.slots[HeadSlot(r) + j])
  {
    var r := Push(t, a, copy, frames);
    var k := HeadSlot(t);
    assert Matches(t.queue[0], t.slots[k]);
    MoreOfPayload(t.queue[0], t.slots[k], copy);
    forall j | 0 <= j < |r.queue| ensures Matches(r.queue[j], r.slots[HeadSlot(r) + j]) {
      assert j > 0 ==> Matches(t.queue[j], t.slots[k + j]);
    }
  }

  lemma PushLog(t: Track, a: Sink, copy: nat, frames: nat)
    requires SlotsOk(t) && Ready(t) && copy <= t.queue[0].size && t.log == Written(t.slots)
    ensures Push(t, a, copy, frames).log == Written(Push(t, a, copy, frames).slots)
  {
    var k := HeadSlot(t);
    var s := t.slots[k];
    assert Matches(t.queue[0], s);
    MoreOfPayload(t.queue[0], s, copy);
    WrittenMore(t.slots, k, s.(done := s.done + copy));
  }

  lemma PushSlots(t: Track, a: Sink, copy: nat, frames: nat)
    requires SlotsOk(t) && Ready(t) && copy <= t.queue[0].size && t.audio.Some?
    ensures SlotsOk(Push(t, a, copy, frames))
  {
    assert Matches(t.queue[0], t.slots[HeadSlot(t)]);
    MoreOfPayload(t.queue[0], t.slots[HeadSlot(t)], copy);
    PushMatches(t, a, copy, frames);
  }

  lemma Slices(s: seq<Byte>, i: nat, j: nat, k: nat)
    requires i + k <= j <= |s|
    ensures s[i..j][..k] == s[i..i + k] && s[i..j][k..] == s[i + k..j]
  {
  }

  lemma MoreOfPayload(info: Info, s: Slot, copy: nat)
    requires Matches(info, s) && copy <= info.size
    ensures s.done + copy <= |s.payload|
    ensures info.base[info.offset..info.offset + copy] == s.payload[s.done..s.done + copy]
    ensures Matches(info.(offset := info.offset + copy, size := info.size - copy), s.(done := s.done + copy))
  {
    var n := |s.payload|;
    assert |Rest(info)| == info.size && s.payload[s.done..] == s.payload[s.done..n];
    Slices(info.base, info.offset, info.offset + info.size, copy);
    Slices(s.payload, s.done, n, copy);
    assert s.payload[s.done + copy..] == s.payload[s.done + copy..n];
  }

  lemma PlayKeeps(t: Track, a: Sink, aborted: bool)
    requires Inv(t) && t.audio.Some? && SinkOk(a) && a.written == t.audio.value.written
    ensures Inv(t.(audio := Some(a), aborted := aborted))
  {
  }

  lemma RenderAudioKeeps(t: Track, n: nat)
    requires Inv(t) && t.queue != [] && t.audio.Some?
    ensures Ready(t)
    ensures Inv(RenderAudio(t, n))
  {
    HeadReady(t);
    RenderFits(t, n);
    var a := Play(t.audio.value, n);
    var copy := Copy(t, a, t.queue[0].size);
    if copy == 0 {
      PlayKeeps(t, a, t.aborted);
    } else if copy % a.frameSize != 0 {
      PlayKeeps(t, a, true);
    } else {
      PushSlots(t, a, copy, copy / a.frameSize);
      PushLog(t, a, copy, copy / a.frameSize);
    }
  }

  lemma RenderHeadKeeps(t: Track, now: int, start: int, n: nat)
    requires Inv(t) && Ready(t)
    ensures Inv(RenderHead(t, now, start, n).0)
  {
    var lateBy := now - (t.queue[0].timeUs + start);
    if lateBy <= -10000 {
    } else if lateBy > 30000 {
      RetireKeeps(t, Late);
    } else if t.audio.None? {
      RetireKeeps(t, Shown);
    } else {
      RenderAudioKeeps(t, n);
      var t1 := RenderAudio(t, n);
      if !t1.aborted && t1.queue[0].size == 0 {
        RetireKeeps(t1, Played);
      }
    }
  }

  lemma {:induction false} RenderAllKeeps(t: Track, now: int, start: int, plays: seq<nat>)
    requires Inv(t)
    ensures Inv(RenderAll(t, now, start, plays))
    decreases |t.queue|
  {
    if t.queue != [] {
      HeadReady(t);
      RenderHeadKeeps(t, now, start, First(plays));
      var (t1, more) := RenderHead(t, now, start, First(plays));
      if more {
        RenderAllKeeps(t1, now, start, Later(plays));
      }
    }
  }

  // ----- Everything is late at some time -----

  /** At this time every waiting buffer is late. */
  predicate AllLate(t: Track, now: int, start: int) {
    forall j :: 0 <= j < |t.queue| ==> now - (t.queue[j].timeUs + start) > 30000
  }

  function LateTime(queue: seq<Info>, start: int): (now: int)
    ensures forall j :: 0 <= j < |queue| ==> now - (queue[j].timeUs + start) > 30000
  {
    if queue == [] then 0
    else
      var first, rest := queue[0].timeUs + start + 30001, LateTime(queue[1..], start);
      if first < rest then rest else first
  }

  /** When all buffers are late, they are all handed back, and nothing is written. */
  lemma {:induction false} LateDrains(t: Track, now: int, start: int, plays: seq<nat>)
    requires Inv(t) && AllLate(t, now, start)
    ensures var r := RenderAll(t, now, start, plays);
            r.queue == [] && r.aborted == t.aborted && r.log == t.log
    decreases |t.queue|
  {
    if t.queue != [] {
      HeadReady(t);
      RenderHeadKeeps(t, now, start, First(plays));
      LateDrains(Retire(t, Late), now, start, Later(plays));
    }
  }

  // ----- Runs -----

  /** One round of onDoMoreStuff for this track. */
  datatype Round = Round(outputs: seq<Output>, now: int, start: int, plays: seq<nat>)

  predicate RoundOk(r: Round) {
    forall k :: 0 <= k < |r.outputs| ==> OutputOk(r.outputs[k])
  }

  predicate RunOk(rs: seq<Round>) {
    forall r :: r in rs ==> RoundOk(r)
  }

  function DoRound(t: Track, r: Round): (t': Track)
    requires Inv(t) && RoundOk(r)
    ensures Inv(t')
  {
    DequeueAllKeeps(t, r.outputs);
    RenderAllKeeps(DequeueAll(t, r.outputs), r.now, r.start, r.plays);
    RenderAll(DequeueAll(t, r.outputs), r.now, r.start, r.plays)
  }

  /** The process ends when the CHECK fails. */
  function AfterRounds(t: Track, rs: seq<Round>): (t': Track)
    requires Inv(t) && RunOk(rs)
    ensures Inv(t')
    decreases |rs|
  {
    if rs == [] || t.aborted then t else AfterRounds(DoRound(t, rs[0]), rs[1..])
  }

  /** Every output buffer the codec produced in a run, in order. */
  function Produced(rs: seq<Round>): seq<Info> {
    if rs == [] then [] else Buffers(rs[0].outputs) + Produced(rs[1..])
  }

  function Buffers(os: seq<Output>): seq<Info> {
    if os == [] then []
    else (if os[0].Buffer? then [os[0].info] else []) + Buffers(os[1..])
  }

  predicate SameBuffer(info: Info, s: Slot) {
    && info.offset + info.size <= |info.base|
    && s.index == info.index && s.timeUs == info.timeUs && s.payload == Rest(info)
  }

  predicate SameBuffers(infos: seq<Info>, slots: seq<Slot>) {
    |infos| == |slots| && forall i :: 0 <= i < |infos| ==> SameBuffer(infos[i], slots[i])
  }

  /** The slots keep their identity; only progress and fate change. */
  predicate SameSlots(a: seq<Slot>, b: seq<Slot>) {
    |a| == |b| && forall i :: 0 <= i < |a| ==>
      a[i].index == b[i].index && a[i].timeUs == b[i].timeUs && a[i].payload == b[i].payload
  }

  lemma SlotsTransfer(infos: seq<Info>, a: seq<Slot>, b: seq<Slot>)
    requires SameBuffers(infos, a) && SameSlots(a, b)
    ensures SameBuffers(infos, b)
  {
    forall i | 0 <= i < |infos| ensures SameBuffer(infos[i], b[i]) {
      assert SameBuffer(infos[i], a[i]);
    }
  }

  lemma SlotsTransitive(a: seq<Slot>, b: seq<Slot>, c: seq<Slot>)
    requires SameSlots(a, b) && SameSlots(b, c)
    ensures SameSlots(a, c)
  {
  }

  lemma RenderHeadSlots(t: Track, now: int, start: int, n: nat)
    requires Ready(t) && AudioOk(t)
    ensures SameSlots(t.slots, RenderHead(t, now, start, n).0.slots)
  {
  }

  lemma {:induction false} RenderAllSlots(t: Track, now: int, start: int, plays: seq<nat>)
    requires Inv(t)
    ensures SameSlots(t.slots, RenderAll(t, now, start, plays).slots)
    decreases |t.queue|
  {
    if t.queue != [] {
      HeadReady(t);
      RenderHeadKeeps(t, now, start, First(plays));
      var (t1, more) := RenderHead(t, now, start, First(plays));
      RenderHeadSlots(t, now, start, First(plays));
      if more {
        RenderAllSlots(t1, now, start, Later(plays));
        SlotsTransitive(t.slots, t1.slots, RenderAll(t1, now, start, Later(plays)).slots);
      }
    }
  }

  lemma Reassociate<T>(a: seq<T>, b: seq<T>, c: seq<T>)
    ensures a + (b + c) == (a + b) + c
  {
  }

  lemma DequeueSlots(t: Track, o: Output, infos: seq<Info>, one: seq<Info>)
    requires SameBuffers(infos, t.slots) && OutputOk(o)
    requires one == if o.Buffer? then [o.info] else []
    ensures SameBuffers(infos + one, Dequeue(t, o).slots)
  {
    var r := Dequeue(t, o);
    forall i | 0 <= i < |infos + one| ensures SameBuffer((infos + one)[i], r.slots[i]) {
      assert i < |infos| ==> SameBuffer(infos[i], t.slots[i]);
    }
  }

  lemma {:induction false} DequeueAllSlots(t: Track, os: seq<Output>, infos: seq<Info>)
    requires SameBuffers(infos, t.slots)
    requires forall k :: 0 <= k < |os| ==> OutputOk(os[k])
    ensures SameBuffers(infos + Buffers(os), DequeueAll(t, os).slots)
    decreases |os|
  {
    if os == [] {
      assert infos + [] == infos;
    } else {
      var one := if os[0].Buffer? then [os[0].info] else [];
      DequeueSlots(t, os[0], infos, one);
      DequeueAllSlots(Dequeue(t, os[0]), os[1..], infos + one);
      Reassociate(infos, one, Buffers(os[1..]));
    }
  }

  lemma RoundSlots(t: Track, r: Round, infos: seq<Info>)
    requires Inv(t) && RoundOk(r) && SameBuffers(infos, t.slots)
    ensures SameBuffers(infos + Buffers(r.outputs), DoRound(t, r).slots)
  {
    var m := DequeueAll(t, r.outputs);
    DequeueAllKeeps(t, r.outputs);
    DequeueAllSlots(t, r.outputs, infos);
    RenderAllSlots(m, r.now, r.start, r.plays);
    SlotsTransfer(infos + Buffers(r.outputs), m.slots, DoRound(t, r).slots);
  }

  /** How many rounds of a run take place: all of them, unless the CHECK fails in one. */
  function Lived(t: Track, rs: seq<Round>): (n: nat)
    requires Inv(t) && RunOk(rs)
    ensures n <= |rs|
    ensures !AfterRounds(t, rs).aborted ==> n == |rs|
    decreases |rs|
  {
    if rs == [] || t.aborted then 0 else 1 + Lived(DoRound(t, rs[0]), rs[1..])
  }

  lemma ProducedFirst(rs: seq<Round>, n: nat)
    requires 0 < n <= |rs|
    ensures Produced(rs[..n]) == Buffers(rs[0].outputs) + Produced(rs[1..][..n - 1])
  {
    assert rs[..n][1..] == rs[1..][..n - 1];
  }

  lemma {:induction false} RunSlots(t: Track, rs: seq<Round>, infos: seq<Info>)
    requires Inv(t) && RunOk(rs)
    requires SameBuffers(infos, t.slots)
    ensures SameBuffers(infos + Produced(rs[..Lived(t, rs)]), AfterRounds(t, rs).slots)
    decreases |rs|
  {
    if rs == [] || t.aborted {
      assert infos + [] == infos;
    } else {
      var t1, more := DoRound(t, rs[0]), Buffers(rs[0].outputs);
      RoundSlots(t, rs[0], infos);
      RunSlots(t1, rs[1..], infos + more);
      ProducedFirst(rs, Lived(t, rs));
      Reassociate(infos, more, Produced(rs[1..][..Lived(t1, rs[1..])]));
    }
  }

  // ----- Main results -----

  /** The buffers handed back are the first ones of `ps`, in order and each once; the rest
      waits in the list, in order. */
  predicate FifoOf(ps: seq<Info>, t: Track) {
    && |t.handedBack| + |t.queue| == |ps|
    && (forall i :: 0 <= i < |t.handedBack| ==> t.handedBack[i] == ps[i].index)
    && (forall j :: 0 <= j < |t.queue| ==> t.queue[j].index == ps[|t.handedBack| + j].index)
  }

  /** What was written is, buffer by buffer, a prefix of its data: all of it if the buffer was
      played, none if there was no audio track or it has not come to the head of the list. */
  predicate PrefixesOf(ps: seq<Info>, t: Track) {
    && SameBuffers(ps, t.slots)
    && (forall s :: s in t.slots ==> SlotOk(s))
    && t.log == Written(t.slots)
    && (forall i :: 0 <= i < |ps| ==> (t.slots[i].fate.Waiting? <==> |t.handedBack| <= i))
    && (forall i :: |t.handedBack| < i < |ps| ==> t.slots[i].done == 0)
  }

  /** First in, first out, and of every buffer a prefix. */
  predicate HandledRight(ps: seq<Info>, t: Track) {
    FifoOf(ps, t) && PrefixesOf(ps, t)
  }

  lemma InvGivesFifo(ps: seq<Info>, t: Track)
    requires Inv(t) && SameBuffers(ps, t.slots)
    ensures FifoOf(ps, t)
  {
    forall i | 0 <= i < |t.handedBack| ensures t.handedBack[i] == ps[i].index {
      assert SameBuffer(ps[i], t.slots[i]);
    }
    forall j | 0 <= j < |t.queue| ensures t.queue[j].index == ps[|t.handedBack| + j].index {
      assert Matches(t.queue[j], t.slots[HeadSlot(t) + j]);
      assert SameBuffer(ps[HeadSlot(t) + j], t.slots[HeadSlot(t) + j]);
    }
  }

  lemma InvGivesPrefixes(ps: seq<Info>, t: Track)
    requires Inv(t) && SameBuffers(ps, t.slots)
    ensures PrefixesOf(ps, t)
  {
    forall i | 0 <= i < |ps| ensures t.slots[i].fate.Waiting? <==> |t.handedBack| <= i {
      assert HeadSlot(t) <= i ==> Matches(t.queue[i - HeadSlot(t)], t.slots[HeadSlot(t) + (i - HeadSlot(t))]);
    }
  }

  /** Over every run of rounds on a track that has had no buffer yet, such as a fresh one: the
      buffers are those of the rounds that took place, which are all unless the process ended. */
  lemma FirstInFirstOut(t: Track, rs: seq<Round>)
    requires Inv(t) && RunOk(rs) && t.slots == []
    ensures Lived(t, rs) <= |rs| && (Lived(t, rs) < |rs| ==> AfterRounds(t, rs).aborted)
    ensures var ps := Produced(rs[..Lived(t, rs)]);
            HandledRight(ps, AfterRounds(t, rs))
  {
    var ps := Produced(rs[..Lived(t, rs)]);
    RunSlots(t, rs, []);
    assert [] + ps == ps;
    InvGivesFifo(ps, AfterRounds(t, rs));
    InvGivesPrefixes(ps, AfterRounds(t, rs));
  }

  ghost predicate Made(t: Track, rs: seq<Round>) {
    RunOk(rs) && AfterRounds(FRESH, rs) == t
  }

  /** The track is what some run of rounds made of a fresh one. */
  ghost predicate FromRounds(t: Track) {
    exists rs :: Made(t, rs)
  }

  lemma {:induction false} AfterOneMore(t: Track, rs: seq<Round>, r: Round)
    requires Inv(t) && RunOk(rs) && RoundOk(r) && !AfterRounds(t, rs).aborted
    ensures RunOk(rs + [r]) && AfterRounds(t, rs + [r]) == DoRound(AfterRounds(t, rs), r)
    decreases |rs|
  {
    if rs == [] {
      assert rs + [r] == [r] && [r][1..] == [];
      assert AfterRounds(t, [r]) == AfterRounds(DoRound(t, r), []);
    } else {
      assert (rs + [r])[1..] == rs[1..] + [r];
      AfterOneMore(DoRound(t, rs[0]), rs[1..], r);
    }
  }

  lemma MadeByOneMore(t: Track, rs: seq<Round>, r: Round)
    requires Made(t, rs) && Inv(t) && RoundOk(r) && !t.aborted
    ensures Made(DoRound(t, r), rs + [r])
  {
    AfterOneMore(FRESH, rs, r);
  }

  lemma OneMoreRound(t: Track, r: Round)
    requires FromRounds(t) && Inv(t) && RoundOk(r) && !t.aborted
    ensures FromRounds(DoRound(t, r))
  {
    var rs :| Made(t, rs);
    MadeByOneMore(t, rs, r);
  }

  /** Some run of rounds led to the track, and the buffers its codec produced in them went back in
      order, each once, the rest waits in order, and what was written of each is a prefix. */
  ghost predicate RightAfterRounds(t: Track) {
    exists rs :: Made(t, rs) && HandledRight(Produced(rs), t)
  }

  /** Unless the process ended, these are all buffers. */
  lemma AllInOrder(t: Track, rs: seq<Round>)
    requires Inv(t) && RunOk(rs) && t.slots == [] && !AfterRounds(t, rs).aborted
    ensures HandledRight(Produced(rs), AfterRounds(t, rs))
  {
    FirstInFirstOut(t, rs);
    assert rs[..|rs|] == rs;
  }

  lemma FromRoundsIsRight(t: Track)
    requires FromRounds(t) && !t.aborted
    ensures RightAfterRounds(t)
  {
    var rs :| Made(t, rs);
    AllInOrder(FRESH, rs);
  }

  /** Over every run, in spite of 32-bit counters, what was written but not played never
      exceeds the track's size and the free space the code computes is the true one. */
  lemma NeverOverfilled(rs: seq<Round>, n: nat)
    requires RunOk(rs)
    ensures var t := AfterRounds(FRESH, rs);
            t.audio.Some? ==>
              var a := Play(t.audio.value, n);
              && a.played <= a.written <= a.played + a.frameCount
              && Available(t, a) == a.frameCount - (a.written - a.played)
  {
    var t := AfterRounds(FRESH, rs);
    assert Inv(t);
    if t.audio.Some? {
      AvailableExact(t, Play(t.audio.value, n));
    }
  }

  /** The CHECK on the number of bytes written fails exactly for a buffer that ends inside a
      frame and would fit. */
  lemma AbortsExactly(t: Track, n: nat)
    requires Inv(t) && Ready(t) && t.audio.Some? && !t.aborted
    ensures var a := Play(t.audio.value, n);
            var free := a.frameCount - (a.written - a.played);
            RenderAudio(t, n).aborted <==>
              t.queue[0].size % a.frameSize != 0 && t.queue[0].size < free * a.frameSize
  {
    var a := Play(t.audio.value, n);
    AvailableExact(t, a);
    MultipleMod(Available(t, a), a.frameSize);
  }

  // ----- The code -----

  /** The loop that empties dequeueOutputBuffer into the list. */
  method DequeueOutputs(t: Track, outputs: seq<Output>) returns (r: Track)
    requires forall k :: 0 <= k < |outputs| ==> OutputOk(outputs[k])
    ensures r == DequeueAll(t, outputs)
  {
    r := t;
    var k := 0;
    while k < |outputs|
      invariant 0 <= k <= |outputs|
      invariant DequeueAll(r, outputs[k..]) == DequeueAll(t, outputs)
    {
      match outputs[k] {
        case Buffer(info) =>
          r := r.(queue := r.queue + [info], slots := r.slots + [NewSlot(info)]);
        case FormatChanged(audio) =>
          if audio.Some? {
            r := r.(audio := audio, counter := 0);
          }
        case BuffersChanged =>
      }
      assert outputs[k..][1..] == outputs[k + 1..];
      k := k + 1;
    }
  }

  /** The loop over the waiting buffers at the end of onDoMoreStuff. */
  method RenderOutputs(t: Track, now: int, start: int, plays: seq<nat>) returns (r: Track)
    requires Inv(t)
    ensures r == RenderAll(t, now, start, plays)
    ensures Inv(r)
  {
    r := t;
    var ps := plays;
    while r.queue != []
      invariant Inv(r)
      invariant RenderAll(r, now, start, ps) == RenderAll(t, now, start, plays)
      decreases |r.queue|
    {
      HeadReady(r);
      RenderHeadKeeps(r, now, start, First(ps));
      ghost var step := RenderHead(r, now, start, First(ps));
      var lateBy := now - (r.queue[0].timeUs + start);
      if lateBy <= -10000 {
        return;
      }
      var fate := Late;
      if lateBy <= 30000 {
        fate := Shown;
        if r.audio.Some? {
          RenderAudioKeeps(r, First(ps));
          r := RenderAudio(r, First(ps));
          if r.aborted || r.queue[0].size > 0 {
            return;
          }
          fate := Played;
        }
      }
      r := Retire(r, fate);
      assert (r, true) == step;
      ps := Later(ps);
    }
  }
}
