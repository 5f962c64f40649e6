/**
 The wire format of vendor tag descriptors (camera/VendorTagDescriptor.cpp).  The reverse index is
 not on the wire; the reader makes it again.
 */
module VendorTagWire {
  import opened Arithmetic
  import opened StringOrder
  import opened VendorTags
  import opened Wrappers

  /** What a parcel holds: 32-bit words, strings and 64-bit words. */
  datatype Token = I(value: nat) | S(text: string) | L(id: nat)

  function TagTokens(d: Descriptor, t: Tag): seq<Token>
    requires t in d.names && t in d.kinds && t in d.sectionOf && d.kinds[t] >= 0
  {
    [I(t), I(d.kinds[t]), S(d.names[t]), I(d.sectionOf[t])]
  }

  /** The maps say something about every one of these tags. */
  predicate Covers(d: Descriptor, ts: seq<Tag>) {
    forall i :: 0 <= i < |ts| ==>
      ts[i] in d.names && ts[i] in d.kinds && ts[i] in d.sectionOf && d.kinds[ts[i]] >= 0
  }

  function WriteTags(d: Descriptor, ts: seq<Tag>): seq<Token>
    requires Covers(d, ts)
  {
    if ts == [] then [] else TagTokens(d, ts[0]) + WriteTags(d, ts[1..])
  }

  function WriteSections(ss: seq<string>): seq<Token> {
    if ss == [] then [] else [S(ss[0])] + WriteSections(ss[1..])
  }

  /** writeToParcel. */
  function Write(d: Descriptor): seq<Token>
    requires Covers(d, d.tags) && d.tagCount >= 0
  {
    [I(d.tagCount)] + WriteTags(d, d.tags) + SectionTokens(d)
  }

  /** A state of reading: what is left to read, the descriptor so far, and the largest section
      number met. */
  datatype Reader = Reader(status: Status, rest: seq<Token>, desc: Descriptor, most: nat)

  function AddEntry(d: Descriptor, t: Tag, kind: int, name: string, section: nat): Descriptor {
    d.(tags := AddTag(d.tags, t), names := d.names[t := name], kinds := d.kinds[t := kind],
       sectionOf := d.sectionOf[t := section])
  }

  /** One iteration of the loop over tags. */
  function ReadTag(r: Reader): Reader {
    var p := r.rest;
    if |p| < 1 || !p[0].I? then r.(status := NotEnoughData)
    else if p[0].value < BOUNDARY then r.(status := BadValue)
    else if |p| < 2 || !p[1].I? then r.(status := NotEnoughData)
    else if p[1].value >= NUM_TYPES then r.(status := BadValue)
    else if |p| < 3 || !p[2].S? || p[2].text == [] then r.(status := NotEnoughData)
    else if |p| < 4 || !p[3].I? then r.(status := NotEnoughData)
    else Reader(OK, p[4..], AddEntry(r.desc, p[0].value, p[1].value, p[2].text, p[3].value),
                Max(r.most, p[3].value))
  }

  function ReadTags(r: Reader, n: nat): Reader
    decreases n
  {
    if n == 0 || r.status != OK then r else ReadTags(ReadTag(r), n - 1)
  }

  function ReadSection(r: Reader): Reader {
    if r.rest == [] || !r.rest[0].S? || r.rest[0].text == [] then r.(status := NotEnoughData)
    else r.(rest := r.rest[1..], desc := r.desc.(sections := AddSection(r.desc.sections, r.rest[0].text)))
  }

  function ReadSections(r: Reader, n: nat): Reader
    decreases n
  {
    if n == 0 || r.status != OK then r else ReadSections(ReadSection(r), n - 1)
  }

  /** The reverse index made from the maps. */
  function Reindex(d: Descriptor, ts: seq<Tag>): map<string, map<string, Tag>> {
    if ts == [] then map[]
    else
      var t := ts[|ts| - 1];
      AddReverse(Reindex(d, ts[..|ts| - 1]), GetSectionName(d, t).GetOr(""), GetTagName(d, t).GetOr(""), t)
  }

  /** The tags as they come in the parcel. */
  function TagsRead(p: seq<Token>, n: nat): seq<Tag> {
    if n == 0 || |p| < 4 || !p[0].I? then [] else [p[0].value] + TagsRead(p[4..], n - 1)
  }

  /** Every tag's section number leads into the section list. */
  predicate InRange(d: Descriptor, ts: seq<Tag>) {
    forall i :: 0 <= i < |ts| ==> GetSectionName(d, ts[i]).Some?
  }

  /** The number of sections needed for a largest section number, in 32 bits. */
  function Needed(most: nat): nat {
    (most + 1) % WORD
  }

  /** readFromParcel after the loop over `n` tags: the section list and the index. */
  function ReadRest(r: Reader, n: nat, ts: seq<Tag>): Reader {
    if r.status != OK || n == 0 then r
    else if r.rest == [] || !r.rest[0].I? then r.(status := NotEnoughData)
    else if r.rest[0].value < Needed(r.most) then r.(status := BadValue)
    else if r.rest[0].value == 0 then r.(status := Fatal)
    else
      var r2 := ReadSections(r.(rest := r.rest[1..]), r.rest[0].value);
      if r2.status != OK then r2
      else if !InRange(r2.desc, ts) then r2.(status := OutOfRange)
      else r2.(desc := r2.desc.(reverse := Reindex(r2.desc, ts)))
  }

  /** readFromParcel into a new descriptor. */
  function Read(p: seq<Token>): Reader {
    var r0 := Reader(OK, p, NONE, 0);
    if p == [] || !p[0].I? then r0.(status := NotEnoughData)
    else if p[0].value >= BOUNDARY then r0.(status := BadValue)
    else
      var n := p[0].value;
      ReadRest(ReadTags(Reader(OK, p[1..], NONE.(tagCount := n), 0), n), n, TagsRead(p[1..], n))
  }

  // ----- Reading back what was written -----

  predicate DistinctTags(ts: seq<Tag>) {
    forall i, j :: 0 <= i < j < |ts| ==> ts[i] != ts[j]
  }

  predicate NonEmptyNames(ops: Ops) {
    forall t :: t in ops.tags ==> NameOf(ops, t) != [] && SectionOf(ops, t) != []
  }

  function Restrict<V>(m: map<Tag, V>, ts: seq<Tag>): map<Tag, V> {
    map t | t in ts && t in m :: m[t]
  }

  lemma RestrictNext<V>(m: map<Tag, V>, ts: seq<Tag>, t: Tag)
    requires t in m
    ensures Restrict(m, ts)[t := m[t]] == Restrict(m, ts + [t])
  {
    var all := ts + [t];
    assert forall x :: x in all <==> x in ts || x == t;
  }

  /** The part of a descriptor that concerns some tags, without sections and index. */
  function Part(d: Descriptor, ts: seq<Tag>): Descriptor {
    Descriptor(d.tagCount, ts, Restrict(d.names, ts), Restrict(d.kinds, ts),
               Restrict(d.sectionOf, ts), [], map[])
  }

  /** What an entry has to be to pass the reader's checks. */
  predicate EntryOk(d: Descriptor, t: Tag) {
    && t in d.names && t in d.kinds && t in d.sectionOf
    && t >= BOUNDARY && 0 <= d.kinds[t] < NUM_TYPES && d.names[t] != [] && d.sectionOf[t] < |d.sections|
  }

  predicate EntriesOk(d: Descriptor, ts: seq<Tag>) {
    forall i :: 0 <= i < |ts| ==> EntryOk(d, ts[i])
  }

  lemma ReadTagBack(d: Descriptor, done: seq<Tag>, t: Tag, p: seq<Token>, most: nat)
    requires Increasing(done + [t]) && EntryOk(d, t)
    ensures ReadTag(Reader(OK, TagTokens(d, t) + p, Part(d, done), most))
         == Reader(OK, p, Part(d, done + [t]), Max(most, d.sectionOf[t]))
  {
    var q := TagTokens(d, t) + p;
    assert q[4..] == p;
    assert (done + [t])[|done|] == t;
    assert forall i :: 0 <= i < |done| ==> (done + [t])[i] == done[i];
    AddTagLast(done, t);
    RestrictNext(d.names, done, t);
    RestrictNext(d.kinds, done, t);
    RestrictNext(d.sectionOf, done, t);
  }

  lemma {:induction false} ReadTagsBack(d: Descriptor, done: seq<Tag>, ts: seq<Tag>, rest: seq<Token>, most: nat)
    requires Increasing(done + ts) && EntriesOk(d, ts) && (most < |d.sections| || most == 0)
    ensures Covers(d, ts)
    ensures var r := ReadTags(Reader(OK, WriteTags(d, ts) + rest, Part(d, done), most), |ts|);
            && r.status == OK && r.rest == rest && r.desc == Part(d, done + ts)
            && (r.most < |d.sections| || r.most == 0)
    decreases |ts|
  {
    if ts == [] {
      assert done + ts == done;
      assert WriteTags(d, ts) + rest == rest;
    } else {
      var t, p := ts[0], WriteTags(d, ts[1..]) + rest;
      assert (done + [t]) + ts[1..] == done + ts;
      assert WriteTags(d, ts) + rest == TagTokens(d, t) + p;
      assert EntryOk(d, ts[0]);
      assert Increasing(done + [t]) by {
        assert forall i :: 0 <= i < |done + [t]| ==> (done + [t])[i] == (done + ts)[i];
      }
      ReadTagBack(d, done, t, p, most);
      ReadTagsBack(d, done + [t], ts[1..], rest, Max(most, d.sectionOf[t]));
    }
  }

  lemma {:induction false} TagsReadBack(d: Descriptor, ts: seq<Tag>, rest: seq<Token>)
    requires Covers(d, ts)
    ensures TagsRead(WriteTags(d, ts) + rest, |ts|) == ts
    decreases |ts|
  {
    if ts != [] {
      var p := WriteTags(d, ts) + rest;
      assert p[4..] == WriteTags(d, ts[1..]) + rest;
      TagsReadBack(d, ts[1..], rest);
      assert ts == [ts[0]] + ts[1..];
    }
  }

  lemma {:induction false} ReadSectionsBack(r: Reader, done: seq<string>, ss: seq<string>, rest: seq<Token>)
    requires r.status == OK && r.desc.sections == done && r.rest == WriteSections(ss) + rest
    requires Ascending(done + ss) && forall i :: 0 <= i < |ss| ==> ss[i] != []
    ensures ReadSections(r, |ss|) == r.(rest := rest, desc := r.desc.(sections := done + ss))
    decreases |ss|
  {
    if ss == [] {
      assert done + ss == done;
      assert WriteSections(ss) + rest == rest;
    } else {
      var s := ss[0];
      assert (done + [s]) + ss[1..] == done + ss;
      forall i | 0 <= i < |done| ensures Less(done[i], s) {
        assert (done + ss)[i] == done[i] && (done + ss)[|done|] == s;
      }
      AddLast(done, s);
      assert r.rest[0] == S(s);
      assert r.rest[1..] == WriteSections(ss[1..]) + rest;
      ReadSectionsBack(ReadSection(r), done + [s], ss[1..], rest);
    }
  }

  lemma {:induction false} ReindexIsReverse(ops: Ops, ts: seq<Tag>)
    requires forall t :: t in ts ==> t in ops.tags
    ensures Reindex(Build(ops), ts) == Reverse(ops, ts)
  {
    if ts != [] {
      ReindexIsReverse(ops, ts[..|ts| - 1]);
      BuiltGetters(ops, ts[|ts| - 1]);
    }
  }

  /** The index only depends on the maps and the section list. */
  lemma {:induction false} ReindexSame(a: Descriptor, b: Descriptor, ts: seq<Tag>)
    requires a.names == b.names && a.sectionOf == b.sectionOf && a.sections == b.sections
    ensures Reindex(a, ts) == Reindex(b, ts)
  {
    if ts != [] {
      ReindexSame(a, b, ts[..|ts| - 1]);
    }
  }

  lemma DistinctMore(front: seq<Tag>, t: Tag)
    ensures DistinctTags(front + [t]) <==> DistinctTags(front) && t !in front
  {
    var ts := front + [t];
    assert forall i :: 0 <= i < |front| ==> ts[i] == front[i];
    if DistinctTags(ts) {
      forall i, j | 0 <= i < j < |front| ensures front[i] != front[j] {
        assert ts[i] != ts[j];
      }
      forall i | 0 <= i < |front| ensures front[i] != t {
        assert ts[i] != ts[|front|];
      }
    }
  }

  lemma {:induction false} AllTagsLength(ts: seq<Tag>)
    ensures |AllTags(ts)| <= |ts|
    ensures |AllTags(ts)| == |ts| <==> DistinctTags(ts)
  {
    if ts != [] {
      var front, t := ts[..|ts| - 1], ts[|ts| - 1];
      AllTagsLength(front);
      AllTagsAre(front);
      AddTagLength(AllTags(front), t);
      assert ts == front + [t];
      DistinctMore(front, t);
    }
  }

  lemma {:induction false} AddTagLength(ts: seq<Tag>, t: Tag)
    requires Increasing(ts)
    ensures |AddTag(ts, t)| == |ts| + if t in ts then 0 else 1
  {
    if ts != [] {
      AddTagLength(ts[1..], t);
      assert t in ts <==> t == ts[0] || t in ts[1..];
    }
  }

  lemma {:induction false} SectionsLength(ops: Ops, ts: seq<Tag>)
    ensures |AllSections(ops, ts)| <= |ts|
  {
    if ts != [] {
      SectionsLength(ops, ts[..|ts| - 1]);
      AddSectionLength(AllSections(ops, ts[..|ts| - 1]), SectionOf(ops, ts[|ts| - 1]));
    }
  }

  lemma {:induction false} AddSectionLength(ss: seq<string>, s: string)
    ensures |AddSection(ss, s)| <= |ss| + 1
  {
    if ss != [] {
      AddSectionLength(ss[1..], s);
    }
  }

  lemma BuiltEntries(ops: Ops)
    requires OpsOk(ops, ops.tags)
    ensures Covers(Build(ops), Build(ops).tags)
    ensures NonEmptyNames(ops) ==> EntriesOk(Build(ops), Build(ops).tags)
  {
    AllTagsAre(ops.tags);
    var d := Build(ops);
    forall i | 0 <= i < |d.tags|
      ensures d.tags[i] in ops.tags && TagOk(ops, d.tags[i]) && d.sectionOf[d.tags[i]] < |d.sections|
    {
      assert d.tags[i] in d.tags;
      BuiltGetters(ops, d.tags[i]);
      var k :| 0 <= k < |ops.tags| && ops.tags[k] == d.tags[i];
      assert TagOk(ops, ops.tags[k]);
    }
  }

  lemma RestrictAll<V>(m: map<Tag, V>, ts: seq<Tag>)
    requires forall x :: x in m ==> x in ts
    ensures Restrict(m, ts) == m
  {
  }

  lemma BuiltPart(ops: Ops)
    ensures Part(Build(ops), Build(ops).tags) == Build(ops).(sections := [], reverse := map[])
  {
    var d := Build(ops);
    AllTagsAre(ops.tags);
    RestrictAll(d.names, d.tags);
    RestrictAll(d.kinds, d.tags);
    RestrictAll(d.sectionOf, d.tags);
  }

  lemma BuiltSections(ops: Ops)
    requires ops.tags != [] && |ops.tags| < BOUNDARY && NonEmptyNames(ops)
    ensures var ss := Build(ops).sections;
            0 < |ss| < BOUNDARY && Ascending(ss) && forall i :: 0 <= i < |ss| ==> ss[i] != []
  {
    var ss := Build(ops).sections;
    AllSectionsAre(ops, ops.tags);
    SectionsLength(ops, ops.tags);
    assert SectionOf(ops, ops.tags[0]) in ss;
    forall i | 0 <= i < |ss| ensures ss[i] != [] {
      assert ss[i] in AllSections(ops, ops.tags);
    }
  }

  /** The section part of what is written. */
  function SectionTokens(d: Descriptor): seq<Token> {
    if d.sections == [] then [] else [I(|d.sections|)] + WriteSections(d.sections)
  }

  /** A descriptor the reader accepts when it is written out. */
  predicate WireOk(d: Descriptor) {
    && d.tagCount == |d.tags| < BOUNDARY
    && Increasing(d.tags) && EntriesOk(d, d.tags)
    && Part(d, d.tags) == d.(sections := [], reverse := map[])
    && |d.sections| < BOUNDARY
    && (d.tags == [] <==> d.sections == [])
    && Ascending(d.sections) && (forall i :: 0 <= i < |d.sections| ==> d.sections[i] != [])
  }

  lemma SameIndexBack(d: Descriptor, d2: Descriptor)
    requires EntriesOk(d, d.tags)
    requires d2.names == d.names && d2.sectionOf == d.sectionOf && d2.sections == d.sections
    ensures InRange(d2, d.tags) && Reindex(d2, d.tags) == Reindex(d, d.tags)
  {
    forall i | 0 <= i < |d.tags| ensures GetSectionName(d2, d.tags[i]).Some? {
      assert EntryOk(d, d.tags[i]);
    }
    ReindexSame(d2, d, d.tags);
  }

  lemma ReadRestUnfold(r: Reader, n: nat, ts: seq<Tag>, r2: Reader)
    requires r.status == OK && n > 0 && r.rest != [] && r.rest[0].I?
    requires r.rest[0].value > 0 && Needed(r.most) <= r.rest[0].value
    requires r2 == ReadSections(r.(rest := r.rest[1..]), r.rest[0].value)
    requires r2.status == OK && InRange(r2.desc, ts)
    ensures ReadRest(r, n, ts) == r2.(desc := r2.desc.(reverse := Reindex(r2.desc, ts)))
  {
  }

  lemma NeededFits(most: nat, n: nat)
    requires 0 < n < BOUNDARY && (most < n || most == 0)
    ensures Needed(most) <= n
  {
  }

  lemma SectionsBack(d: Descriptor, r: Reader, rest: seq<Token>)
    requires WireOk(d) && r.status == OK && r.desc == Part(d, d.tags)
    requires r.rest == WriteSections(d.sections) + rest
    ensures var r2 := ReadSections(r, |d.sections|);
            && r2 == r.(rest := rest, desc := r2.desc) && r2.desc == d.(reverse := map[])
            && InRange(r2.desc, d.tags) && Reindex(r2.desc, d.tags) == Reindex(d, d.tags)
  {
    assert [] + d.sections == d.sections;
    ReadSectionsBack(r, [], d.sections, rest);
    assert ReadSections(r, |d.sections|).desc == d.(reverse := map[]);
    SameIndexBack(d, d.(reverse := map[]));
  }

  lemma ReadRestBack(d: Descriptor, r: Reader, rest: seq<Token>)
    requires WireOk(d) && d.tags != []
    requires r.status == OK && r.rest == SectionTokens(d) + rest && r.desc == Part(d, d.tags)
    requires r.most < |d.sections| || r.most == 0
    ensures var s := ReadRest(r, |d.tags|, d.tags);
            s.status == OK && s.rest == rest && s.desc == d.(reverse := Reindex(d, d.tags))
  {
    var p := WriteSections(d.sections) + rest;
    CountFirst(d, p, rest);
    assert r.rest == [I(|d.sections|)] + p && r.rest[1..] == p;
    SectionsBack(d, r.(rest := p), rest);
    NeededFits(r.most, |d.sections|);
    ReadRestUnfold(r, |d.tags|, d.tags, ReadSections(r.(rest := p), |d.sections|));
  }

  lemma CountFirst(d: Descriptor, p: seq<Token>, rest: seq<Token>)
    requires d.sections != [] && p == WriteSections(d.sections) + rest
    ensures SectionTokens(d) + rest == [I(|d.sections|)] + p
  {
  }

  lemma ReadBackTags(d: Descriptor, rest: seq<Token>)
    requires WireOk(d)
    ensures Covers(d, d.tags)
    ensures var p := WriteTags(d, d.tags) + rest;
            var r := ReadTags(Reader(OK, p, NONE.(tagCount := |d.tags|), 0), |d.tags|);
            && r.status == OK && r.rest == rest && r.desc == Part(d, d.tags)
            && (r.most < |d.sections| || r.most == 0)
            && TagsRead(p, |d.tags|) == d.tags
  {
    assert [] + d.tags == d.tags;
    assert Part(d, []) == NONE.(tagCount := |d.tags|);
    ReadTagsBack(d, [], d.tags, rest, 0);
    TagsReadBack(d, d.tags, rest);
  }

  lemma ReadUnfold(n: nat, q: seq<Token>, ts: seq<Tag>, r: Reader)
    requires n < BOUNDARY && r == ReadTags(Reader(OK, q, NONE.(tagCount := n), 0), n)
    requires ts == TagsRead(q, n)
    ensures Read([I(n)] + q) == ReadRest(r, n, ts)
  {
    assert ([I(n)] + q)[1..] == q;
  }

  /** What reading back gives: everything, with the index filled in the order of the tags. */
  lemma ReadBack(d: Descriptor, rest: seq<Token>)
    requires WireOk(d)
    ensures Covers(d, d.tags)
    ensures var r := Read(Write(d) + rest);
            r.status == OK && r.rest == rest && r.desc == d.(reverse := Reindex(d, d.tags))
  {
    var n, tail := |d.tags|, SectionTokens(d) + rest;
    ReadBackTags(d, tail);
    var q := WriteTags(d, d.tags) + tail;
    var r := ReadTags(Reader(OK, q, NONE.(tagCount := n), 0), n);
    WriteShape(d, rest);
    ReadUnfold(n, q, d.tags, r);
    if n == 0 {
      assert ReadRest(r, n, d.tags) == r;
      EmptyShape(d, rest);
    } else {
      ReadRestBack(d, r, rest);
    }
  }

  lemma WriteShape(d: Descriptor, rest: seq<Token>)
    requires Covers(d, d.tags) && d.tagCount >= 0
    ensures Write(d) + rest == [I(d.tagCount)] + (WriteTags(d, d.tags) + (SectionTokens(d) + rest))
  {
  }

  lemma EmptyShape(d: Descriptor, rest: seq<Token>)
    requires WireOk(d) && d.tags == []
    ensures SectionTokens(d) + rest == rest
    ensures Part(d, d.tags) == d.(reverse := Reindex(d, d.tags))
  {
  }

  lemma BuiltWireOk(ops: Ops)
    requires OpsOk(ops, ops.tags) && |ops.tags| < BOUNDARY
    requires DistinctTags(ops.tags) && NonEmptyNames(ops)
    ensures WireOk(Build(ops))
    ensures Reindex(Build(ops), Build(ops).tags) == Reverse(ops, AllTags(ops.tags))
  {
    BuiltEntries(ops);
    BuiltPart(ops);
    AllTagsAre(ops.tags);
    AllTagsLength(ops.tags);
    if ops.tags != [] {
      BuiltSections(ops);
      assert ops.tags[0] in AllTags(ops.tags);
    }
    ReindexIsReverse(ops, Build(ops).tags);
  }

  /** The same tag comes last for every label. */
  ghost predicate SameLast(ops: Ops, a: seq<Tag>, b: seq<Tag>) {
    forall s, n :: Last(ops, a, s, n) == Last(ops, b, s, n)
  }

  /** Filling the index in another order gives the same index exactly if the same tag comes last
      for every label. */
  lemma SameIndexExactly(ops: Ops, a: seq<Tag>, b: seq<Tag>)
    ensures Reverse(ops, a) == Reverse(ops, b)
       <==> SameLast(ops, a, b)
  {
    if Reverse(ops, a) == Reverse(ops, b) {
      forall s, n ensures Last(ops, a, s, n) == Last(ops, b, s, n) {
        ReverseAnswers(ops, a, s, n);
        ReverseAnswers(ops, b, s, n);
      }
    } else if SameLast(ops, a, b) {
      SameLastSameIndex(ops, a, b);
    }
  }

  lemma SameLastSameIndex(ops: Ops, a: seq<Tag>, b: seq<Tag>)
    requires SameLast(ops, a, b)
    ensures Reverse(ops, a) == Reverse(ops, b)
  {
    ReverseNoEmpty(ops, a);
    ReverseNoEmpty(ops, b);
    forall s, n ensures Lookup(Reverse(ops, a), s, n) == Lookup(Reverse(ops, b), s, n) {
      ReverseAnswers(ops, a, s, n);
      ReverseAnswers(ops, b, s, n);
    }
    SameAnswers(Reverse(ops, a), Reverse(ops, b));
  }

  lemma DistinctSameLast(ops: Ops, a: seq<Tag>, b: seq<Tag>, s: string, n: string)
    requires DistinctLabels(ops, a) && forall x :: x in a <==> x in b
    ensures Last(ops, a, s, n) == Last(ops, b, s, n)
  {
    LastIsOne(ops, a, s, n);
    LastIsOne(ops, b, s, n);
  }

  // ----- Main results -----

  /** A descriptor built from ops with distinct tags, nonempty names and distinct labels is read
      back exactly as it was, index included, whatever follows it in the parcel. */
  lemma RoundTrip(ops: Ops, rest: seq<Token>)
    requires OpsOk(ops, ops.tags) && |ops.tags| < BOUNDARY
    requires DistinctTags(ops.tags) && NonEmptyNames(ops) && DistinctLabels(ops, ops.tags)
    ensures Covers(Build(ops), Build(ops).tags)
    ensures var r := Read(Write(Build(ops)) + rest);
            r.status == OK && r.rest == rest && r.desc == Build(ops)
  {
    BuiltWireOk(ops);
    ReadBack(Build(ops), rest);
    AllTagsAre(ops.tags);
    forall s, n ensures Last(ops, ops.tags, s, n) == Last(ops, AllTags(ops.tags), s, n) {
      DistinctSameLast(ops, ops.tags, AllTags(ops.tags), s, n);
    }
    SameLastSameIndex(ops, ops.tags, AllTags(ops.tags));
  }

  predicate SameLabel(ops: Ops, t: Tag, u: Tag) {
    HasLabel(ops, t, SectionOf(ops, u), NameOf(ops, u))
  }

  /** No tag listed behind place `j` has the label of the tag there. */
  predicate ListedLast(ops: Ops, tags: seq<Tag>, j: nat)
    requires j < |tags|
  {
    forall k :: j < k < |tags| ==> !SameLabel(ops, tags[k], tags[j])
  }

  /** For every label the tag listed last is the largest one with it. */
  predicate LargestLast(ops: Ops, tags: seq<Tag>) {
    forall i, j :: 0 <= i < j < |tags| && SameLabel(ops, tags[i], tags[j]) && ListedLast(ops, tags, j) ==>
      tags[i] <= tags[j]
  }

  /** The tag listed last for a label, with its place in the list. */
  lemma {:induction false} LastPlace(ops: Ops, tags: seq<Tag>, s: string, n: string) returns (j: nat)
    requires Last(ops, tags, s, n).Some?
    ensures j < |tags| && tags[j] == Last(ops, tags, s, n).value && HasLabel(ops, tags[j], s, n)
    ensures forall k :: j < k < |tags| ==> !HasLabel(ops, tags[k], s, n)
  {
    var last := |tags| - 1;
    if HasLabel(ops, tags[last], s, n) {
      j := last;
    } else {
      j := LastPlace(ops, tags[..last], s, n);
      assert forall k :: 0 <= k < last ==> tags[..last][k] == tags[k];
    }
  }

  /** In an increasing list the last tag with a label is the largest. */
  lemma LastOfIncreasing(ops: Ops, tags: seq<Tag>, s: string, n: string, t: Tag)
    requires Increasing(tags) && t in tags && HasLabel(ops, t, s, n)
    ensures Last(ops, tags, s, n).Some? && t <= Last(ops, tags, s, n).value
  {
    LastIsOne(ops, tags, s, n);
    var j := LastPlace(ops, tags, s, n);
    var i :| 0 <= i < |tags| && tags[i] == t;
  }

  lemma LargestLastGivesSame(ops: Ops, s: string, n: string)
    requires LargestLast(ops, ops.tags)
    ensures Last(ops, ops.tags, s, n) == Last(ops, AllTags(ops.tags), s, n)
  {
    var tags, all := ops.tags, AllTags(ops.tags);
    AllTagsAre(tags);
    LastIsOne(ops, tags, s, n);
    LastIsOne(ops, all, s, n);
    if Last(ops, tags, s, n).Some? {
      var t := Last(ops, tags, s, n).value;
      LastOfIncreasing(ops, all, s, n, t);
      var u := Last(ops, all, s, n).value;
      var j := LastPlace(ops, tags, s, n);
      var i :| 0 <= i < |tags| && tags[i] == u;
      assert ListedLast(ops, tags, j);
      assert i < j ==> SameLabel(ops, tags[i], tags[j]);
    }
  }

  lemma SameGivesLargestLast(ops: Ops)
    requires SameLast(ops, ops.tags, AllTags(ops.tags))
    ensures LargestLast(ops, ops.tags)
  {
    var tags := ops.tags;
    AllTagsAre(tags);
    forall i, j | 0 <= i < j < |tags| && SameLabel(ops, tags[i], tags[j]) && ListedLast(ops, tags, j)
      ensures tags[i] <= tags[j]
    {
      var s, n := SectionOf(ops, tags[j]), NameOf(ops, tags[j]);
      LastOfIncreasing(ops, AllTags(tags), s, n, tags[i]);
      var k := LastPlace(ops, tags, s, n);
      assert k > j ==> !SameLabel(ops, tags[k], tags[j]);
      assert k == j;
    }
  }

  /** When labels are shared, the descriptor still survives exactly if for every label the tag
      the ops listed last is the largest one with it. */
  lemma RoundTripExactly(ops: Ops, rest: seq<Token>)
    requires OpsOk(ops, ops.tags) && |ops.tags| < BOUNDARY
    requires DistinctTags(ops.tags) && NonEmptyNames(ops)
    ensures Covers(Build(ops), Build(ops).tags)
    ensures Read(Write(Build(ops)) + rest).desc == Build(ops) <==> LargestLast(ops, ops.tags)
  {
    BuiltWireOk(ops);
    ReadBack(Build(ops), rest);
    SameIndexExactly(ops, ops.tags, AllTags(ops.tags));
    if LargestLast(ops, ops.tags) {
      forall s, n ensures Last(ops, ops.tags, s, n) == Last(ops, AllTags(ops.tags), s, n) {
        LargestLastGivesSame(ops, s, n);
      }
    } else if SameLast(ops, ops.tags, AllTags(ops.tags)) {
      SameGivesLargestLast(ops);
    }
  }

  /** Everything of one name, section and type. */
  ghost predicate AllAlike(ops: Ops, name: string) {
    forall t :: ops.name(t) == Some(name) && ops.section(t) == Some("section") && ops.kind(t) == 0
  }

  lemma ReadBackChanged(ops: Ops, rest: seq<Token>)
    requires OpsOk(ops, ops.tags) && |ops.tags| < BOUNDARY
    requires DistinctTags(ops.tags) && NonEmptyNames(ops) && !LargestLast(ops, ops.tags)
    ensures Covers(Build(ops), Build(ops).tags)
    ensures var r := Read(Write(Build(ops)) + rest); r.status == OK && r.desc != Build(ops)
  {
    ReadSucceedsExactly(ops, rest);
    RoundTripExactly(ops, rest);
  }

  /** Two tags of one label, the larger listed first: the index comes back changed. */
  lemma RoundTripExample(ops: Ops, rest: seq<Token>)
    requires ops.tags == [BOUNDARY + 1, BOUNDARY] && AllAlike(ops, "name")
    ensures OpsOk(ops, ops.tags) && Covers(Build(ops), Build(ops).tags)
    ensures var r := Read(Write(Build(ops)) + rest); r.status == OK && r.desc != Build(ops)
  {
    assert SameLabel(ops, ops.tags[0], ops.tags[1]) && ListedLast(ops, ops.tags, 1);
    ReadBackChanged(ops, rest);
  }

  /** A tag listed twice, or a tag without a name, is built and written but not read back. */
  lemma NotReadBackExample(ops: Ops, rest: seq<Token>)
    requires || (ops.tags == [BOUNDARY, BOUNDARY] && AllAlike(ops, "name"))
             || (ops.tags == [BOUNDARY] && AllAlike(ops, ""))
    ensures OpsOk(ops, ops.tags) && Covers(Build(ops), Build(ops).tags)
    ensures Read(Write(Build(ops)) + rest).status != OK
  {
    assert ops.tags[0] in ops.tags;
    ReadSucceedsExactly(ops, rest);
  }

  // ----- When reading back fails -----

  /** Reading `n` tags where fewer were written meets the section count, which is no tag. */
  lemma {:induction false} TagsReadOnly(d: Descriptor, ts: seq<Tag>, rest: seq<Token>, n: nat, r: Reader)
    requires Covers(d, ts) && |ts| <= n && r.rest == WriteTags(d, ts) + rest
    requires rest != [] && rest[0].I? && rest[0].value < BOUNDARY
    ensures ReadTags(r, n).status == OK ==>
              && n == |ts| && ReadTags(r, n).rest == rest
              && forall i :: 0 <= i < |ts| ==> d.names[ts[i]] != []
    decreases |ts|
  {
    if r.status == OK {
      if ts == [] {
        assert r.rest == rest;
        if n > 0 {
          assert ReadTag(r).status == BadValue;
          assert ReadTags(r, n) == ReadTags(ReadTag(r), n - 1) == ReadTag(r);
        }
      } else {
        var p := WriteTags(d, ts[1..]) + rest;
        assert r.rest == TagTokens(d, ts[0]) + p;
        assert r.rest[2] == S(d.names[ts[0]]);
        var r1 := ReadTag(r);
        if r1.status == OK {
          assert r1.rest == p;
          TagsReadOnly(d, ts[1..], rest, n - 1, r1);
          assert forall i :: 1 <= i < |ts| ==> ts[1..][i - 1] == ts[i];
        } else {
          assert ReadTags(r1, n - 1) == r1;
        }
      }
    }
  }

  lemma {:induction false} SectionsReadOnly(r: Reader, ss: seq<string>, rest: seq<Token>)
    requires r.rest == WriteSections(ss) + rest
    ensures ReadSections(r, |ss|).status == OK ==> forall i :: 0 <= i < |ss| ==> ss[i] != []
    decreases |ss|
  {
    if ss != [] && r.status == OK {
      assert r.rest[0] == S(ss[0]);
      assert r.rest[1..] == WriteSections(ss[1..]) + rest;
      var r1 := ReadSection(r);
      if r1.status == OK {
        SectionsReadOnly(r1, ss[1..], rest);
        assert forall i :: 1 <= i < |ss| ==> ss[1..][i - 1] == ss[i];
      } else {
        assert ReadSections(r1, |ss| - 1) == r1;
      }
    }
  }

  lemma NamesFromEntries(ops: Ops)
    requires forall i :: 0 <= i < |AllTags(ops.tags)| ==> NameOf(ops, AllTags(ops.tags)[i]) != []
    requires forall i :: 0 <= i < |AllSections(ops, ops.tags)| ==> AllSections(ops, ops.tags)[i] != []
    ensures NonEmptyNames(ops)
  {
    AllTagsAre(ops.tags);
    AllSectionsAre(ops, ops.tags);
    forall t | t in ops.tags ensures NameOf(ops, t) != [] && SectionOf(ops, t) != [] {
      assert t in AllTags(ops.tags);
      var k :| 0 <= k < |ops.tags| && ops.tags[k] == t;
      assert SectionOf(ops, ops.tags[k]) in AllSections(ops, ops.tags);
    }
  }

  /** Reading back succeeds exactly if no tag is listed twice and no name or section is empty. */
  lemma ReadSucceedsExactly(ops: Ops, rest: seq<Token>)
    requires OpsOk(ops, ops.tags) && |ops.tags| < BOUNDARY
    ensures Covers(Build(ops), Build(ops).tags)
    ensures Read(Write(Build(ops)) + rest).status == OK <==> DistinctTags(ops.tags) && NonEmptyNames(ops)
  {
    var d, n := Build(ops), |ops.tags|;
    BuiltEntries(ops);
    if DistinctTags(ops.tags) && NonEmptyNames(ops) {
      BuiltWireOk(ops);
      ReadBack(d, rest);
    } else if n > 0 && Read(Write(d) + rest).status == OK {
      FailedRead(ops, rest);
    }
  }

  /** A successful read means that as many tags were written as announced, and nothing empty. */
  lemma RestPassed(r: Reader, n: nat, ts: seq<Tag>)
    requires n > 0 && ReadRest(r, n, ts).status == OK
    ensures r.status == OK && r.rest != [] && r.rest[0].I?
    ensures ReadSections(r.(rest := r.rest[1..]), r.rest[0].value).status == OK
  {
  }

  lemma SuccessfulRead(d: Descriptor, rest: seq<Token>)
    requires Covers(d, d.tags) && |d.tags| <= d.tagCount && 0 < d.tagCount < BOUNDARY
    requires 0 < |d.sections| < BOUNDARY
    requires Read(Write(d) + rest).status == OK
    ensures |d.tags| == d.tagCount
    ensures forall i :: 0 <= i < |d.tags| ==> d.names[d.tags[i]] != []
    ensures forall i :: 0 <= i < |d.sections| ==> d.sections[i] != []
  {
    var n, tail := d.tagCount, SectionTokens(d) + rest;
    assert tail == [I(|d.sections|)] + (WriteSections(d.sections) + rest);
    WriteShape(d, rest);
    SuccessfulTail(d, n, tail, rest);
  }

  lemma SuccessfulTail(d: Descriptor, n: nat, tail: seq<Token>, rest: seq<Token>)
    requires Covers(d, d.tags) && |d.tags| <= n && 0 < n < BOUNDARY && |d.sections| < BOUNDARY
    requires tail == [I(|d.sections|)] + (WriteSections(d.sections) + rest)
    requires Read([I(n)] + (WriteTags(d, d.tags) + tail)).status == OK
    ensures |d.tags| == n
    ensures forall i :: 0 <= i < |d.tags| ==> d.names[d.tags[i]] != []
    ensures forall i :: 0 <= i < |d.sections| ==> d.sections[i] != []
  {
    var q := WriteTags(d, d.tags) + tail;
    var r0 := Reader(OK, q, NONE.(tagCount := n), 0);
    var r := ReadTags(r0, n);
    ReadUnfold(n, q, TagsRead(q, n), r);
    RestPassed(r, n, TagsRead(q, n));
    TagsReadOnly(d, d.tags, tail, n, r0);
    assert tail[1..] == WriteSections(d.sections) + rest;
    SectionsReadOnly(r.(rest := tail[1..]), d.sections, rest);
  }

  lemma FailedRead(ops: Ops, rest: seq<Token>)
    requires OpsOk(ops, ops.tags) && 0 < |ops.tags| < BOUNDARY
    requires Covers(Build(ops), Build(ops).tags)
    requires Read(Write(Build(ops)) + rest).status == OK
    ensures DistinctTags(ops.tags) && NonEmptyNames(ops)
  {
    var d := Build(ops);
    AllTagsLength(ops.tags);
    AllSectionsAre(ops, ops.tags);
    SectionsLength(ops, ops.tags);
    assert SectionOf(ops, ops.tags[0]) in d.sections;
    SuccessfulRead(d, rest);
    AllTagsAre(ops.tags);
    forall i | 0 <= i < |d.tags| ensures NameOf(ops, d.tags[i]) != [] {
      assert d.tags[i] in ops.tags;
    }
    NamesFromEntries(ops);
  }
}
