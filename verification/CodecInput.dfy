/**
 What codecs are given by the two players of cmds/stagefright (codec.cpp and SimplePlayer.cpp):
 the samples of a file, each for the codec of its own track.
 */
module CodecInput {

  datatype Sample = Sample(track: nat, data: seq<int>, timeUs: int)

  /** What is in an input buffer when it is queued. */
  datatype Input = Config(csd: seq<int>) | Data(sample: Sample) | EndOfStream

  /** editValueFor on tracks sorted by their numbers: the place of a number. */
  function KeyIndex(keys: seq<nat>, key: nat): (i: nat)
    ensures i <= |keys|
    ensures i < |keys| <==> key in keys
    ensures i < |keys| ==> keys[i] == key
  {
    if keys == [] || keys[0] == key then 0 else 1 + KeyIndex(keys[1..], key)
  }

  predicate DistinctKeys(keys: seq<nat>) {
    forall i, j :: 0 <= i < j < |keys| ==> keys[i] != keys[j]
  }

  /** The extractor only delivers samples of selected tracks. */
  predicate Selected(samples: seq<Sample>, keys: seq<nat>) {
    forall k :: 0 <= k < |samples| ==> samples[k].track in keys
  }

  /** The samples of one track, in order. */
  function Of(samples: seq<Sample>, key: nat): seq<Input> {
    if samples == [] then []
    else
      var last := |samples| - 1;
      Of(samples[..last], key) + if samples[last].track == key then [Data(samples[last])] else []
  }

  lemma OfNext(samples: seq<Sample>, n: nat, key: nat)
    requires n < |samples|
    ensures Of(samples[..n + 1], key)
         == Of(samples[..n], key) + if samples[n].track == key then [Data(samples[n])] else []
  {
    assert samples[..n + 1][..n] == samples[..n];
  }

  /** Each sample is with one track only, as often as it is in the file. */
  lemma {:induction false} EverySampleOnce(samples: seq<Sample>, key: nat, s: Sample)
    ensures multiset(Of(samples, key))[Data(s)] == if s.track == key then multiset(samples)[s] else 0
  {
    if samples != [] {
      var last := |samples| - 1;
      EverySampleOnce(samples[..last], key, s);
      assert samples == samples[..last] + [samples[last]];
    }
  }
}
