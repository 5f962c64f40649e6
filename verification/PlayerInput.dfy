/**
 The codecs of the simple player (cmds/stagefright/SimplePlayer.cpp) and their input side: buffers
 the codecs hand out are filled with configuration data and samples, in the order of the file.
 */
module PlayerInput {
  import opened CodecInput
  import PT = PlayerTrack

  /** An input buffer that was queued. */
  datatype Filled = Filled(index: nat, content: Input)

  /** An entry of mStateByTrackIndex. */
  datatype Codec = Codec(
    id: nat,
    key: nat,                    // the number of its track in the file
    csd: seq<seq<int>>,          // mCSD
    avail: seq<nat>,             // mAvailInputBufferIndices
    granted: seq<nat>,           // the input buffers the codec handed out so far
    queued: seq<Filled>,         // and those it got back
    track: PT.Track)

  function NewCodec(id: nat, key: nat, csd: seq<seq<int>>): Codec {
    Codec(id, key, csd, [], [], [], PT.FRESH)
  }

  function Keys(cs: seq<Codec>): (keys: seq<nat>)
    ensures |keys| == |cs|
  {
    seq(|cs|, i requires 0 <= i < |cs| => cs[i].key)
  }

  // ----- Steps -----

  /** The first `n` pieces of configuration data go to the codec; `buffers` are the ones it hands
      out for them. */
  function Configure(c: Codec, buffers: nat -> nat, n: nat): Codec
    requires n <= |c.csd|
  {
    if n == 0 then c
    else
      var c1 := Configure(c, buffers, n - 1);
      c1.(granted := c1.granted + [buffers(n - 1)],
          queued := c1.queued + [Filled(buffers(n - 1), Config(c.csd[n - 1]))])
  }

  /** The codec hands out more input buffers. */
  function Grant(c: Codec, indices: seq<nat>): Codec {
    c.(avail := c.avail + indices, granted := c.granted + indices)
  }

  /** A sample goes into the first buffer that is available. */
  function Fill(c: Codec, s: Sample): Codec
    requires c.avail != []
  {
    c.(avail := c.avail[1..], queued := c.queued + [Filled(c.avail[0], Data(s))])
  }

  /** The feeding loop from sample `next` on: it stops at the end of the file, or at a sample whose
      codec has no buffer. */
  function FeedAll(cs: seq<Codec>, samples: seq<Sample>, next: nat): (r: (seq<Codec>, nat))
    requires next <= |samples| && Selected(samples, Keys(cs))
    ensures |r.0| == |cs| && next <= r.1 <= |samples|
    decreases |samples| - next
  {
    if next == |samples| then (cs, next)
    else
      var i := KeyIndex(Keys(cs), samples[next].track);
      if cs[i].avail == [] then (cs, next)
      else
        var cs1 := cs[i := Fill(cs[i], samples[next])];
        assert Keys(cs1) == Keys(cs);
        FeedAll(cs1, samples, next + 1)
  }

  // ----- The invariant -----

  function Indices(qs: seq<Filled>): seq<nat> {
    if qs == [] then [] else Indices(qs[..|qs| - 1]) + [qs[|qs| - 1].index]
  }

  function Contents(qs: seq<Filled>): seq<Input> {
    if qs == [] then [] else Contents(qs[..|qs| - 1]) + [qs[|qs| - 1].content]
  }

  function Configs(csd: seq<seq<int>>): seq<Input> {
    if csd == [] then [] else Configs(csd[..|csd| - 1]) + [Config(csd[|csd| - 1])]
  }

  /** The codec was given its configuration data and then exactly the samples of its own track, in
      order; the buffers went back filled in the order in which they were handed out, each once,
      and the rest is available, in order. */
  predicate InputRight(c: Codec, samples: seq<Sample>) {
    && Contents(c.queued) == Configs(c.csd) + Of(samples, c.key)
    && Indices(c.queued) + c.avail == c.granted
  }

  predicate InputsRight(cs: seq<Codec>, samples: seq<Sample>) {
    DistinctKeys(Keys(cs)) && forall i :: 0 <= i < |cs| ==> InputRight(cs[i], samples)
  }

  lemma QueuedOneMore(qs: seq<Filled>, q: Filled)
    ensures Indices(qs + [q]) == Indices(qs) + [q.index]
    ensures Contents(qs + [q]) == Contents(qs) + [q.content]
  {
    assert (qs + [q])[..|qs|] == qs;
  }

  /** What the first `n` pieces of configuration data do to a new codec. */
  predicate Configured(c: Codec, r: Codec, buffers: nat -> nat, n: nat)
    requires n <= |c.csd|
  {
    && r == c.(granted := r.granted, queued := r.queued)
    && Contents(r.queued) == Configs(c.csd[..n]) && Indices(r.queued) == r.granted
    && |r.granted| == n && forall j :: 0 <= j < n ==> r.granted[j] == buffers(j)
  }

  lemma ConfigureOne(c: Codec, r: Codec, buffers: nat -> nat, n: nat)
    requires n < |c.csd| && Configured(c, r, buffers, n)
    ensures Configured(c, r.(granted := r.granted + [buffers(n)],
                             queued := r.queued + [Filled(buffers(n), Config(c.csd[n]))]), buffers, n + 1)
  {
    QueuedOneMore(r.queued, Filled(buffers(n), Config(c.csd[n])));
    assert c.csd[..n + 1][..n] == c.csd[..n];
  }

  lemma {:induction false} ConfigureRight(c: Codec, buffers: nat -> nat, n: nat)
    requires n <= |c.csd| && c.queued == [] && c.granted == [] && c.avail == []
    ensures Configured(c, Configure(c, buffers, n), buffers, n)
  {
    if n > 0 {
      ConfigureRight(c, buffers, n - 1);
      ConfigureOne(c, Configure(c, buffers, n - 1), buffers, n - 1);
    }
  }

  /** A codec that was just configured. */
  lemma ConfiguredRight(id: nat, key: nat, csd: seq<seq<int>>, buffers: nat -> nat)
    ensures InputRight(Configure(NewCodec(id, key, csd), buffers, |csd|), [])
  {
    var c := NewCodec(id, key, csd);
    ConfigureRight(c, buffers, |csd|);
    assert csd[..|csd|] == csd;
    var r := Configure(c, buffers, |csd|);
    assert Configs(csd) + [] == Configs(csd) && Indices(r.queued) + [] == Indices(r.queued);
  }

  lemma GrantRight(c: Codec, indices: seq<nat>, samples: seq<Sample>)
    requires InputRight(c, samples)
    ensures InputRight(Grant(c, indices), samples)
  {
    assert Indices(c.queued) + (c.avail + indices) == (Indices(c.queued) + c.avail) + indices;
  }

  lemma FillRight(c: Codec, samples: seq<Sample>, n: nat)
    requires n < |samples| && InputRight(c, samples[..n]) && samples[n].track == c.key && c.avail != []
    ensures InputRight(Fill(c, samples[n]), samples[..n + 1])
  {
    OfNext(samples, n, c.key);
    QueuedOneMore(c.queued, Filled(c.avail[0], Data(samples[n])));
    var all := Of(samples[..n], c.key);
    assert Configs(c.csd) + (all + [Data(samples[n])]) == (Configs(c.csd) + all) + [Data(samples[n])];
    assert (Indices(c.queued) + [c.avail[0]]) + c.avail[1..] == Indices(c.queued) + c.avail;
  }

  lemma OtherRight(c: Codec, samples: seq<Sample>, n: nat)
    requires n < |samples| && InputRight(c, samples[..n]) && samples[n].track != c.key
    ensures InputRight(c, samples[..n + 1])
  {
    OfNext(samples, n, c.key);
    assert Of(samples[..n], c.key) + [] == Of(samples[..n], c.key);
  }

  lemma FillOneRight(cs: seq<Codec>, samples: seq<Sample>, n: nat, i: nat)
    requires n < |samples| && InputsRight(cs, samples[..n])
    requires i < |cs| && cs[i].key == samples[n].track && cs[i].avail != []
    ensures InputsRight(cs[i := Fill(cs[i], samples[n])], samples[..n + 1])
  {
    var r := cs[i := Fill(cs[i], samples[n])];
    assert Keys(r) == Keys(cs);
    forall k | 0 <= k < |r| ensures InputRight(r[k], samples[..n + 1]) {
      assert InputRight(cs[k], samples[..n]);
      if k == i {
        FillRight(cs[i], samples, n);
      } else {
        assert Keys(cs)[k] != Keys(cs)[i];
        OtherRight(cs[k], samples, n);
      }
    }
  }

  /** Feeding touches the input side only. */
  predicate OnlyInput(a: seq<Codec>, b: seq<Codec>) {
    && |a| == |b|
    && forall i :: 0 <= i < |a| ==> b[i] == a[i].(avail := b[i].avail, queued := b[i].queued)
  }

  lemma OnlyInputThen(a: seq<Codec>, i: nat, c: Codec, r: seq<Codec>)
    requires i < |a| && c == a[i].(avail := c.avail, queued := c.queued) && OnlyInput(a[i := c], r)
    ensures OnlyInput(a, r)
  {
    forall k | 0 <= k < |a| ensures r[k] == a[k].(avail := r[k].avail, queued := r[k].queued) {
      assert r[k] == a[i := c][k].(avail := r[k].avail, queued := r[k].queued);
    }
  }

  lemma {:induction false} FeedAllOnlyInput(cs: seq<Codec>, samples: seq<Sample>, next: nat)
    requires next <= |samples| && Selected(samples, Keys(cs))
    ensures OnlyInput(cs, FeedAll(cs, samples, next).0)
    decreases |samples| - next
  {
    if next < |samples| {
      var i := KeyIndex(Keys(cs), samples[next].track);
      if cs[i].avail != [] {
        var c := Fill(cs[i], samples[next]);
        assert Keys(cs[i := c]) == Keys(cs);
        FeedAllOnlyInput(cs[i := c], samples, next + 1);
        OnlyInputThen(cs, i, c, FeedAll(cs[i := c], samples, next + 1).0);
      }
    }
  }

  /** What the loop leaves behind. */
  predicate RightAfter(r: (seq<Codec>, nat), samples: seq<Sample>)
    requires r.1 <= |samples|
  {
    InputsRight(r.0, samples[..r.1])
  }

  lemma {:induction false} FeedAllRight(cs: seq<Codec>, samples: seq<Sample>, next: nat)
    requires next <= |samples| && Selected(samples, Keys(cs)) && RightAfter((cs, next), samples)
    ensures RightAfter(FeedAll(cs, samples, next), samples)
    decreases |samples| - next
  {
    if next == |samples| || cs[KeyIndex(Keys(cs), samples[next].track)].avail == [] {
      assert FeedAll(cs, samples, next) == (cs, next);
    } else {
      var i := KeyIndex(Keys(cs), samples[next].track);
      var cs1 := cs[i := Fill(cs[i], samples[next])];
      assert Keys(cs1) == Keys(cs);
      FillOneRight(cs, samples, next, i);
      FeedAllRight(cs1, samples, next + 1);
      assert FeedAll(cs, samples, next) == FeedAll(cs1, samples, next + 1);
    }
  }

  /** Nothing more can be fed: the file is at its end, or the next sample's codec has no buffer. */
  predicate FedUp(cs: seq<Codec>, samples: seq<Sample>, next: nat)
    requires next <= |samples| && Selected(samples, Keys(cs))
  {
    next == |samples| || cs[KeyIndex(Keys(cs), samples[next].track)].avail == []
  }

  lemma {:induction false} FeedAllFeedsUp(cs: seq<Codec>, samples: seq<Sample>, next: nat)
    requires next <= |samples| && Selected(samples, Keys(cs))
    ensures var (r, n) := FeedAll(cs, samples, next); Selected(samples, Keys(r)) && FedUp(r, samples, n)
    decreases |samples| - next
  {
    if next < |samples| {
      var i := KeyIndex(Keys(cs), samples[next].track);
      if cs[i].avail != [] {
        var cs1 := cs[i := Fill(cs[i], samples[next])];
        assert Keys(cs1) == Keys(cs);
        FeedAllFeedsUp(cs1, samples, next + 1);
      }
    }
  }

  /** Every codec has at least `n` buffers. */
  predicate Supplied(cs: seq<Codec>, n: int) {
    forall k :: 0 <= k < |cs| ==> |cs[k].avail| >= n
  }

  /** With enough buffers the loop ends at the end of the file. */
  lemma {:induction false} SuppliedFeedsAll(cs: seq<Codec>, samples: seq<Sample>, next: nat)
    requires next <= |samples| && Selected(samples, Keys(cs)) && Supplied(cs, |samples| - next)
    ensures FeedAll(cs, samples, next).1 == |samples|
    decreases |samples| - next
  {
    if next < |samples| {
      var i := KeyIndex(Keys(cs), samples[next].track);
      var cs1 := cs[i := Fill(cs[i], samples[next])];
      assert Keys(cs1) == Keys(cs);
      SuppliedFeedsAll(cs1, samples, next + 1);
    }
  }

  // ----- The code -----

  /** The loop that queues the configuration data of one codec. */
  method QueueConfig(start: Codec, buffers: nat -> nat) returns (c: Codec)
    ensures c == Configure(start, buffers, |start.csd|)
  {
    c := start;
    for j := 0 to |start.csd|
      invariant c == Configure(start, buffers, j)
    {
      var index := buffers(j);
      c := c.(granted := c.granted + [index], queued := c.queued + [Filled(index, Config(start.csd[j]))]);
    }
  }

  /** The loop that takes samples from the extractor. */
  method FeedSamples(start: seq<Codec>, samples: seq<Sample>, from: nat) returns (cs: seq<Codec>, next: nat)
    requires from <= |samples| && Selected(samples, Keys(start))
    ensures (cs, next) == FeedAll(start, samples, from)
  {
    cs, next := start, from;
    while next < |samples|
      invariant from <= next <= |samples| && Selected(samples, Keys(cs))
      invariant FeedAll(cs, samples, next) == FeedAll(start, samples, from)
    {
      var i := KeyIndex(Keys(cs), samples[next].track);
      var c := cs[i];
      if c.avail == [] {
        break;
      }
      var index := c.avail[0];
      c := c.(avail := c.avail[1..]);
      c := c.(queued := c.queued + [Filled(index, Data(samples[next]))]);
      assert Keys(cs[i := c]) == Keys(cs);
      cs := cs[i := c];
      next := next + 1;
    }
  }
}
