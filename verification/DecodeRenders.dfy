/**
 Which buffers the decode loop of cmds/stagefright/codec.cpp renders at a time, and in which rounds
 it signals the end of the input.
 */
module DecodeRenders {
  import opened CodecInput
  import opened DecodeLoop

  // ----- What comes out -----

  /** A buffer that comes out of a track's codec: its time stamp, and the clock when it does. */
  datatype Stamp = Stamp(track: nat, timeUs: int, nowNs: int)

  /** The codec of track `i` has put out its end mark in one of these rounds. */
  predicate Ended(rs: seq<Round>, i: nat) {
    exists k :: 0 <= k < |rs| && rs[k].reply(i).Buffer? && rs[k].reply(i).eos
  }

  lemma EndedNext(rs: seq<Round>, r: Round, i: nat)
    ensures Ended(rs + [r], i) <==> Ended(rs, i) || (r.reply(i).Buffer? && r.reply(i).eos)
  {
    var all := rs + [r];
    if Ended(rs, i) {
      var k :| 0 <= k < |rs| && rs[k].reply(i).Buffer? && rs[k].reply(i).eos;
      assert all[k] == rs[k];
    }
    if r.reply(i).Buffer? && r.reply(i).eos {
      assert all[|rs|] == r;
    }
  }

  /** The buffer of track `i` in round `r`, unless the codec had ended in the rounds before. */
  function OneStamp(r: Round, before: seq<Round>, i: nat): seq<Stamp> {
    if !Ended(before, i) && r.reply(i).Buffer? then [Stamp(i, r.reply(i).timeUs, r.nowNs(i))] else []
  }

  /** The buffers of round `r` from track `i` on, in the order of the tracks. */
  function RoundStamps(r: Round, before: seq<Round>, n: nat, i: nat): seq<Stamp>
    requires i <= n
    decreases n - i
  {
    if i == n then [] else OneStamp(r, before, i) + RoundStamps(r, before, n, i + 1)
  }

  /** All buffers of `n` tracks, round by round. */
  function AllStamps(before: seq<Round>, rs: seq<Round>, n: nat): seq<Stamp>
    decreases |rs|
  {
    if rs == [] then [] else RoundStamps(rs[0], before, n, 0) + AllStamps(before + [rs[0]], rs[1..], n)
  }

  /** The renders are these stamps, one for one. */
  predicate AreStamps(renders: seq<Render>, stamps: seq<Stamp>) {
    |renders| == |stamps| && forall k :: 0 <= k < |stamps| ==>
      renders[k].timeUs == stamps[k].timeUs && renders[k].nowNs == stamps[k].nowNs
  }

  /** The stamps are those of the buffers the codecs put out, up to their end marks: for every track
      in order, none missing and none twice. */
  function TrackTimes(stamps: seq<Stamp>, i: nat): seq<int> {
    if stamps == [] then []
    else (if stamps[0].track == i then [stamps[0].timeUs] else []) + TrackTimes(stamps[1..], i)
  }

  function Times(replies: seq<Reply>): seq<int> {
    if replies == [] then []
    else (if replies[0].Buffer? then [replies[0].timeUs] else []) + Times(replies[1..])
  }

  lemma {:induction false} TrackTimesAppend(a: seq<Stamp>, b: seq<Stamp>, i: nat)
    ensures TrackTimes(a + b, i) == TrackTimes(a, i) + TrackTimes(b, i)
  {
    if a == [] {
      assert a + b == b;
    } else {
      var first := if a[0].track == i then [a[0].timeUs] else [];
      assert (a + b)[1..] == a[1..] + b && (a + b)[0] == a[0];
      TrackTimesAppend(a[1..], b, i);
      assert first + (TrackTimes(a[1..], i) + TrackTimes(b, i)) == (first + TrackTimes(a[1..], i)) + TrackTimes(b, i);
    }
  }

  lemma {:induction false} RoundTimes(r: Round, before: seq<Round>, n: nat, j: nat, i: nat)
    requires j <= n
    ensures TrackTimes(RoundStamps(r, before, n, j), i)
         == if j <= i < n && !Ended(before, i) && r.reply(i).Buffer? then [r.reply(i).timeUs] else []
    decreases n - j
  {
    if j < n {
      RoundTimes(r, before, n, j + 1, i);
      TrackTimesAppend(OneStamp(r, before, j), RoundStamps(r, before, n, j + 1), i);
    }
  }

  /** For every track the stamps are the times of what its codec put out, in order, up to the end
      mark. */
  lemma {:induction false} StampsOfTrack(before: seq<Round>, rs: seq<Round>, n: nat, i: nat)
    requires i < n
    ensures TrackTimes(AllStamps(before, rs, n), i) == Times(if Ended(before, i) then [] else Heard(Replies(rs, i)))
    decreases |rs|
  {
    if rs != [] {
      var r, later := rs[0], Replies(rs[1..], i);
      StampsOfTrack(before + [r], rs[1..], n, i);
      EndedNext(before, r, i);
      RoundTimes(r, before, n, 0, i);
      TrackTimesAppend(RoundStamps(r, before, n, 0), AllStamps(before + [r], rs[1..], n), i);
      assert Replies(rs, i)[1..] == later;
      if !Ended(before, i) {
        HeardTimes(r.reply(i), later);
      }
    }
  }

  lemma HeardTimes(reply: Reply, later: seq<Reply>)
    ensures Times(Heard([reply] + later))
         == (if reply.Buffer? then [reply.timeUs] else [])
            + Times(if reply.Buffer? && reply.eos then [] else Heard(later))
  {
    assert ([reply] + later)[1..] == later;
    if reply.Buffer? && !reply.eos {
      assert ([reply] + Heard(later))[1..] == Heard(later);
    }
  }

  // ----- Runs -----

  /** The codecs that are done are those that have ended. */
  predicate DoneIs(ts: seq<Track>, before: seq<Round>) {
    forall i :: 0 <= i < |ts| ==> (ts[i].done <==> Ended(before, i))
  }

  predicate DoneFrom(ts: seq<Track>, before: seq<Round>, from: nat) {
    forall i :: from <= i < |ts| ==> (ts[i].done <==> Ended(before, i))
  }

  lemma AreStampsMore(a: seq<Render>, sa: seq<Stamp>, b: seq<Render>, sb: seq<Stamp>)
    requires AreStamps(a, sa) && AreStamps(b, sb)
    ensures AreStamps(a + b, sa + sb)
  {
  }

  lemma DrainOneStamps(st: State, src: Source, r: Round, before: seq<Round>, i: nat, stamps: seq<Stamp>)
    requires i < |st.tracks| && DoneFrom(st.tracks, before, i) && AreStamps(st.renders, stamps)
    ensures var st' := DrainOne(st, src, r, i);
            && DoneFrom(st'.tracks, before, i + 1)
            && AreStamps(st'.renders, stamps + if src.timed then OneStamp(r, before, i) else [])
  {
    var reply := r.reply(i);
    if src.timed && !st.tracks[i].done && reply.Buffer? {
      var x := Rendered(st, reply.timeUs, r.nowNs(i)).renders[|st.renders|];
      AreStampsMore(st.renders, stamps, [x], OneStamp(r, before, i));
    } else {
      AreStampsMore(st.renders, stamps, [], []);
      assert st.renders + [] == st.renders;
    }
  }

  lemma {:induction false} DrainStamps(st: State, src: Source, r: Round, before: seq<Round>, i: nat, stamps: seq<Stamp>)
    requires i <= |st.tracks| && DoneFrom(st.tracks, before, i) && AreStamps(st.renders, stamps)
    ensures AreStamps(DrainFrom(st, src, r, i).renders,
                      stamps + if src.timed then RoundStamps(r, before, |st.tracks|, i) else [])
    decreases |st.tracks| - i
  {
    if i == |st.tracks| {
      assert stamps + [] == stamps;
    } else {
      var one, rest := OneStamp(r, before, i), RoundStamps(r, before, |st.tracks|, i + 1);
      DrainOneStamps(st, src, r, before, i, stamps);
      DrainStamps(DrainOne(st, src, r, i), src, r, before, i + 1, stamps + if src.timed then one else []);
      if src.timed {
        assert (stamps + one) + rest == stamps + (one + rest);
      } else {
        assert (stamps + []) + [] == stamps + [];
      }
    }
  }

  lemma {:induction false} NothingLeft(r: Round, before: seq<Round>, n: nat, i: nat)
    requires i <= n && forall k: nat :: i <= k < n ==> Ended(before, k)
    ensures RoundStamps(r, before, n, i) == []
    decreases n - i
  {
    if i < n {
      assert Ended(before, i);
      NothingLeft(r, before, n, i + 1);
    }
  }

  lemma StepDone(st: State, src: Source, r: Round, before: seq<Round>)
    requires Inv(st, src) && DoneIs(st.tracks, before)
    ensures |Step(st, src, r).tracks| == |st.tracks| && DoneIs(Step(st, src, r).tracks, before + [r])
  {
    var st' := Step(st, src, r);
    if !st.finished {
      FeedOrSignalKeeps(st, src, r);
      StepTracks(st, src, r);
    }
    forall i | 0 <= i < |st'.tracks| ensures st'.tracks[i].done <==> Ended(before + [r], i) {
      EndedNext(before, r, i);
      assert st.tracks[i].done <==> Ended(before, i);
      if !st.finished {
        assert OnlyInput(st.tracks[i], FeedOrSignal(st, src, r).tracks[i]);
      }
    }
  }

  lemma StepStamps(st: State, src: Source, r: Round, before: seq<Round>, stamps: seq<Stamp>)
    requires Inv(st, src) && DoneIs(st.tracks, before) && AreStamps(st.renders, stamps)
    ensures AreStamps(Step(st, src, r).renders,
                      stamps + if src.timed then RoundStamps(r, before, |st.tracks|, 0) else [])
  {
    var n := |st.tracks|;
    assert stamps + [] == stamps;
    if st.finished {
      NothingLeft(r, before, n, 0);
    } else {
      var st1 := FeedOrSignal(st, src, r);
      FeedOrSignalKeeps(st, src, r);
      forall i | 0 <= i < n ensures st1.tracks[i].done <==> Ended(before, i) {
        assert OnlyInput(st.tracks[i], st1.tracks[i]);
      }
      if AllDone(st1.tracks) {
        NothingLeft(r, before, n, 0);
      } else {
        DrainStamps(st1, src, r, before, 0, stamps);
      }
    }
  }

  lemma ShownMore(src: Source, stamps: seq<Stamp>, a: seq<Stamp>, b: seq<Stamp>)
    ensures (stamps + if src.timed then a else []) + (if src.timed then b else [])
         == stamps + if src.timed then a + b else []
  {
    assert (stamps + a) + b == stamps + (a + b);
    assert (stamps + []) + [] == stamps + [];
  }

  lemma {:induction false} RunStamps(st: State, src: Source, rs: seq<Round>, before: seq<Round>, stamps: seq<Stamp>)
    requires Inv(st, src) && DoneIs(st.tracks, before) && AreStamps(st.renders, stamps)
    ensures AreStamps(Run(st, src, rs).renders,
                      stamps + if src.timed then AllStamps(before, rs, |st.tracks|) else [])
    decreases |rs|
  {
    if rs == [] {
      assert stamps + [] == stamps;
    } else {
      var st1, n := Step(st, src, rs[0]), |st.tracks|;
      var one := RoundStamps(rs[0], before, n, 0);
      StepKeeps(st, src, rs[0]);
      StepDone(st, src, rs[0], before);
      StepStamps(st, src, rs[0], before, stamps);
      RunStamps(st1, src, rs[1..], before + [rs[0]], stamps + if src.timed then one else []);
      ShownMore(src, stamps, one, AllStamps(before + [rs[0]], rs[1..], n));
      assert Run(st, src, rs) == Run(st1, src, rs[1..]);
    }
  }

  /** Over every run: if buffers are rendered at a time, then exactly those that came out of any of
      the codecs up to its end mark, round by round and in a round in the order of the tracks, each
      with the clock of its round; for every track these are the times of all it put out, in order.
      Otherwise none is. */
  lemma RendersExactly(keys: seq<nat>, src: Source, rs: seq<Round>)
    requires Start(keys, src)
    ensures Inv(Initial(keys), src)
    ensures AreStamps(Run(Initial(keys), src, rs).renders, if src.timed then AllStamps([], rs, |keys|) else [])
    ensures forall i: nat :: i < |keys| ==> TrackTimes(AllStamps([], rs, |keys|), i) == Times(Heard(Replies(rs, i)))
  {
    var st := Initial(keys);
    InitialInv(keys, src);
    RunFromStart(st, src, rs, [], []);
    forall i: nat | i < |keys| ensures TrackTimes(AllStamps([], rs, |keys|), i) == Times(Heard(Replies(rs, i))) {
      StampsOfTrack([], rs, |keys|, i);
    }
  }

  lemma RunFromStart(st: State, src: Source, rs: seq<Round>, before: seq<Round>, none: seq<Stamp>)
    requires Inv(st, src) && st.renders == [] && before == [] && none == []
    requires forall i :: 0 <= i < |st.tracks| ==> !st.tracks[i].done
    ensures AreStamps(Run(st, src, rs).renders, if src.timed then AllStamps(before, rs, |st.tracks|) else [])
  {
    RunStamps(st, src, rs, before, none);
    NothingFirst(none, if src.timed then AllStamps(before, rs, |st.tracks|) else []);
  }

  lemma NothingFirst(none: seq<Stamp>, all: seq<Stamp>)
    requires none == []
    ensures none + all == all
  {
  }

  // ----- End marks -----

  /** A round signals the end to a track exactly if the file was at its end before and the track's
      codec has a buffer for the mark; the end of the file is noticed in the round after the last
      sample. */
  lemma SignalledExactly(st: State, src: Source, r: Round, i: nat)
    requires Inv(st, src) && i < |st.tracks| && !st.finished
    ensures var st' := Step(st, src, r);
            && |st'.tracks| == |st.tracks|
            && (st'.tracks[i].signalled <==> st.tracks[i].signalled || (st.sawInputEos && r.endGrant(i)))
            && (st'.sawInputEos <==> st.next == |src.samples|)
  {
    FeedOrSignalKeeps(st, src, r);
    StepTracks(st, src, r);
    assert TrackRight(st, src, st.tracks[i]);
  }
}
