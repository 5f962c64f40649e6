/**
 camera/CameraMetadata.cpp: a buffer of tagged entries that is enlarged when needed and has
 to behave as a map from tags to data.

 The buffer library is modelled by its contract: entries in order, two capacities, and calls
 that fail when something does not fit.
 */
module CameraMetadata {
  import opened Arithmetic
  import opened Wrappers

  datatype Status = OK | InvalidOperation | BadValue | NameNotFound | NoMemory

  datatype Type = TypeByte | TypeInt32 | TypeFloat | TypeInt64 | TypeDouble | TypeRational

  type Tag = nat

  datatype Entry = Entry(tag: Tag, kind: Type, data: seq<int>)

  /** A camera_metadata_t. */
  datatype Buffer = Buffer(entries: seq<Entry>, entryCap: nat, dataCap: nat)

  // ----- The library -----

  function TypeSize(kind: Type): nat {
    match kind
    case TypeByte => 1
    case TypeInt32 => 4
    case TypeFloat => 4
    case TypeInt64 => 8
    case TypeDouble => 8
    case TypeRational => 8
  }

  /** calculate_camera_metadata_entry_data_size: up to four bytes are kept in the entry itself,
      more are kept outside, rounded up to a multiple of eight. */
  function DataSize(kind: Type, count: nat): nat {
    var bytes := TypeSize(kind) * count;
    if bytes <= 4 then 0 else (bytes + 7) / 8 * 8
  }

  function EntrySize(e: Entry): nat {
    DataSize(e.kind, |e.data|)
  }

  function DataCount(es: seq<Entry>): nat {
    if es == [] then 0 else EntrySize(es[0]) + DataCount(es[1..])
  }

  predicate Fits(b: Buffer) {
    |b.entries| <= b.entryCap && DataCount(b.entries) <= b.dataCap
  }

  /** Index of the first entry with a tag, or the number of entries if there is none. */
  function Find(es: seq<Entry>, tag: Tag): (i: nat)
    ensures i <= |es|
    ensures i < |es| ==> es[i].tag == tag
    ensures forall k :: 0 <= k < i ==> es[k].tag != tag
  {
    if es == [] || es[0].tag == tag then 0 else 1 + Find(es[1..], tag)
  }

  function AddEntry(b: Buffer, e: Entry): Option<Buffer> {
    if |b.entries| == b.entryCap || DataCount(b.entries) + EntrySize(e) > b.dataCap then None
    else Some(b.(entries := b.entries + [e]))
  }

  function UpdateEntry(b: Buffer, i: nat, data: seq<int>): Option<Buffer>
    requires i < |b.entries|
  {
    var e := b.entries[i].(data := data);
    if EntrySize(e) != EntrySize(b.entries[i])
       && b.dataCap < DataCount(b.entries) + EntrySize(e) - EntrySize(b.entries[i])
    then None
    else Some(b.(entries := b.entries[i := e]))
  }

  function DeleteEntry(b: Buffer, i: nat): Buffer
    requires i < |b.entries|
  {
    b.(entries := b.entries[..i] + b.entries[i + 1..])
  }

  function AppendAll(b: Buffer, es: seq<Entry>): Option<Buffer> {
    if b.entryCap < |b.entries| + |es| || b.dataCap < DataCount(b.entries) + DataCount(es) then None
    else Some(b.(entries := b.entries + es))
  }

  // ----- The map a buffer stands for -----

  /** What find sees: the first entry of a tag counts. */
  function Contents(es: seq<Entry>): map<Tag, seq<int>> {
    if es == [] then map[] else Contents(es[1..])[es[0].tag := es[0].data]
  }

  predicate UniqueTags(es: seq<Entry>) {
    forall i, j :: 0 <= i < j < |es| ==> es[i].tag != es[j].tag
  }

  lemma {:induction false} ContentsAt(es: seq<Entry>, tag: Tag)
    ensures tag in Contents(es) <==> Find(es, tag) < |es|
    ensures Find(es, tag) < |es| ==> Contents(es)[tag] == es[Find(es, tag)].data
  {
    if es != [] {
      ContentsAt(es[1..], tag);
    }
  }

  lemma {:induction false} FindFirst(es: seq<Entry>, i: nat)
    requires i < |es| && forall k :: 0 <= k < i ==> es[k].tag != es[i].tag
    ensures Find(es, es[i].tag) == i
  {
    if i > 0 {
      FindFirst(es[1..], i - 1);
    }
  }

  lemma {:induction false} FindAppend(a: seq<Entry>, b: seq<Entry>, tag: Tag)
    ensures Find(a + b, tag) == if Find(a, tag) < |a| then Find(a, tag) else |a| + Find(b, tag)
  {
    if a == [] {
      assert a + b == b;
    } else {
      assert (a + b)[1..] == a[1..] + b;
      FindAppend(a[1..], b, tag);
    }
  }

  lemma ContentsAppend(a: seq<Entry>, b: seq<Entry>)
    ensures Contents(a + b) == Contents(b) + Contents(a)
  {
    forall t: Tag
      ensures t in Contents(a + b) <==> t in Contents(b) + Contents(a)
      ensures t in Contents(a + b) ==> Contents(a + b)[t] == (Contents(b) + Contents(a))[t]
    {
      ContentsAt(a, t);
      ContentsAt(b, t);
      ContentsAt(a + b, t);
      FindAppend(a, b, t);
    }
  }

  lemma ContentsUpdate(es: seq<Entry>, i: nat, data: seq<int>)
    requires i < |es| && Find(es, es[i].tag) == i
    ensures Contents(es[i := es[i].(data := data)]) == Contents(es)[es[i].tag := data]
  {
    var r := es[i := es[i].(data := data)];
    forall t: Tag
      ensures t in Contents(r) <==> t in Contents(es) || t == es[i].tag
      ensures t in Contents(r) ==> Contents(r)[t] == Contents(es)[es[i].tag := data][t]
    {
      ContentsAt(es, t);
      ContentsAt(r, t);
      FindSameTags(es, r, t);
    }
  }

  lemma {:induction false} FindSameTags(a: seq<Entry>, b: seq<Entry>, tag: Tag)
    requires |a| == |b| && forall k :: 0 <= k < |a| ==> a[k].tag == b[k].tag
    ensures Find(a, tag) == Find(b, tag)
  {
    if a != [] {
      FindSameTags(a[1..], b[1..], tag);
    }
  }

  /** Deleting the first entry of a tag uncovers the next one, if there is one, and changes
      nothing for other tags. */
  lemma {:induction false} DeleteAt(es: seq<Entry>, i: nat, t: Tag)
    requires i < |es| && Find(es, es[i].tag) == i
    ensures var r := es[..i] + es[i + 1..];
            if t == es[i].tag then t in Contents(r) <==> t in Contents(es[i + 1..])
            else && (t in Contents(r) <==> t in Contents(es))
                 && (t in Contents(es) ==> Contents(r)[t] == Contents(es)[t])
  {
    var r := es[..i] + es[i + 1..];
    if i == 0 {
      assert r == es[1..];
    } else {
      var tail := es[1..];
      DeleteAt(tail, i - 1, t);
      assert tail[i - 1] == es[i] && tail[i..] == es[i + 1..];
      assert r[0] == es[0] && r[1..] == tail[..i - 1] + tail[i..];
    }
  }

  lemma UniqueFind(es: seq<Entry>, i: nat)
    requires UniqueTags(es) && i < |es|
    ensures Find(es, es[i].tag) == i && Find(es[i + 1..], es[i].tag) == |es| - i - 1
  {
    FindFirst(es, i);
  }

  // ----- Space -----

  lemma {:induction false} DataCountAppend(a: seq<Entry>, b: seq<Entry>)
    ensures DataCount(a + b) == DataCount(a) + DataCount(b)
  {
    if a == [] {
      assert a + b == b;
    } else {
      assert (a + b)[1..] == a[1..] + b;
      DataCountAppend(a[1..], b);
    }
  }

  lemma {:induction false} DataCountSplit(es: seq<Entry>, i: nat)
    requires i < |es|
    ensures DataCount(es) == DataCount(es[..i]) + EntrySize(es[i]) + DataCount(es[i + 1..])
  {
    if i > 0 {
      var tail := es[1..];
      DataCountSplit(tail, i - 1);
      assert es[..i][0] == es[0] && es[..i][1..] == tail[..i - 1];
      assert tail[i - 1] == es[i] && tail[i..] == es[i + 1..];
    }
  }

  /** What a resize did over a whole run: how often each capacity was outgrown, how often the
      buffer was reallocated, and the largest demands. */
  datatype Growth = Growth(entryGrowths: nat, dataGrowths: nat, reallocations: nat,
                           peakEntries: nat, peakData: nat)

  /** The fields of a CameraMetadata, with the history of its growth. */
  datatype Meta = Meta(buffer: Option<Buffer>, growth: Growth)

  const EMPTY := Meta(None, Growth(0, 0, 0, 0, 0))

  function Entries(m: Meta): seq<Entry> {
    if m.buffer.None? then [] else m.buffer.value.entries
  }

  /** A capacity after a demand: unchanged if it suffices, else twice the demand. */
  function NewCap(cap: nat, demand: nat): nat {
    if demand > cap then demand * 2 else cap
  }

  /** resizeIfNeeded, with an allocation that succeeds. */
  function Resize(m: Meta, extraEntries: nat, extraData: nat): Meta {
    var g := m.growth;
    var needE := |Entries(m)| + extraEntries;
    var needD := DataCount(Entries(m)) + extraData;
    var g1 := g.(peakEntries := Max(g.peakEntries, needE), peakData := Max(g.peakData, needD));
    if m.buffer.None? then
      Meta(Some(Buffer([], extraEntries * 2, extraData * 2)), g1)
    else
      var b := m.buffer.value;
      var bigE, bigD := needE > b.entryCap, needD > b.dataCap;
      Meta(Some(Buffer(b.entries, NewCap(b.entryCap, needE), NewCap(b.dataCap, needD))),
           g1.(entryGrowths := g.entryGrowths + One(bigE), dataGrowths := g.dataGrowths + One(bigD),
               reallocations := g.reallocations + One(bigE || bigD)))
  }

  predicate MetaFits(m: Meta) {
    m.buffer.Some? ==> Fits(m.buffer.value)
  }

  /** After a resize the demanded room is there, and nothing but room changed. */
  lemma ResizeGivesRoom(m: Meta, extraEntries: nat, extraData: nat)
    requires MetaFits(m)
    ensures var r := Resize(m, extraEntries, extraData);
            && r.buffer.Some? && MetaFits(r) && Entries(r) == Entries(m)
            && |Entries(m)| + extraEntries <= r.buffer.value.entryCap
            && DataCount(Entries(m)) + extraData <= r.buffer.value.dataCap
  {
  }

  // ----- Operations -----

  /** updateImpl, for a tag whose type is known. */
  function Update(m: Meta, tag: Tag, kind: Type, data: seq<int>): (r: (Meta, Status)) {
    var m1 := Resize(m, 1, DataSize(kind, |data|));
    var b := m1.buffer.value;
    var i := Find(b.entries, tag);
    var b' := if i < |b.entries| then UpdateEntry(b, i, data) else AddEntry(b, Entry(tag, kind, data));
    if b'.None? then (m1, NoMemory) else (m1.(buffer := b'), OK)
  }

  function Erase(m: Meta, tag: Tag): Meta {
    var i := Find(Entries(m), tag);
    if i == |Entries(m)| then m
    else m.(buffer := Some(DeleteEntry(m.buffer.value, i)))
  }

  function Append(m: Meta, other: seq<Entry>): (r: (Meta, Status)) {
    var m1 := Resize(m, |other|, DataCount(other));
    var b' := AppendAll(m1.buffer.value, other);
    if b'.None? then (m1, NoMemory) else (m1.(buffer := b'), OK)
  }

  /** The type of every entry is the one its tag has. */
  predicate Typed(es: seq<Entry>, types: map<Tag, Type>) {
    forall e :: e in es ==> e.tag in types && types[e.tag] == e.kind
  }

  lemma UpdateIsMapUpdate(m: Meta, tag: Tag, data: seq<int>, types: map<Tag, Type>)
    requires MetaFits(m) && Typed(Entries(m), types) && tag in types
    ensures var (r, status) := Update(m, tag, types[tag], data);
            && status == OK && MetaFits(r) && Typed(Entries(r), types)
            && Contents(Entries(r)) == Contents(Entries(m))[tag := data]
            && (UniqueTags(Entries(m)) ==> UniqueTags(Entries(r)))
  {
    var kind := types[tag];
    ResizeGivesRoom(m, 1, DataSize(kind, |data|));
    var es, b := Entries(m), Resize(m, 1, DataSize(kind, |data|)).buffer.value;
    if Find(es, tag) < |es| {
      UpdateThere(b, Find(es, tag), data, types);
    } else {
      UpdateNew(b, Entry(tag, kind, data), types);
    }
  }

  lemma UpdateThere(b: Buffer, i: nat, data: seq<int>, types: map<Tag, Type>)
    requires Fits(b) && Typed(b.entries, types) && i < |b.entries| && Find(b.entries, b.entries[i].tag) == i
    requires DataCount(b.entries) + EntrySize(b.entries[i].(data := data)) <= b.dataCap
    ensures var r := UpdateEntry(b, i, data);
            && r.Some? && Fits(r.value) && Typed(r.value.entries, types)
            && Contents(r.value.entries) == Contents(b.entries)[b.entries[i].tag := data]
            && (UniqueTags(b.entries) ==> UniqueTags(r.value.entries))
  {
    var es := b.entries;
    DataCountUpdate(es, i, es[i].(data := data));
    ContentsUpdate(es, i, data);
    assert es[i] in es;
  }

  lemma UpdateNew(b: Buffer, e: Entry, types: map<Tag, Type>)
    requires Fits(b) && Typed(b.entries, types) && e.tag in types && types[e.tag] == e.kind
    requires Find(b.entries, e.tag) == |b.entries|
    requires |b.entries| < b.entryCap && DataCount(b.entries) + EntrySize(e) <= b.dataCap
    ensures var r := AddEntry(b, e);
            && r.Some? && Fits(r.value) && Typed(r.value.entries, types)
            && Contents(r.value.entries) == Contents(b.entries)[e.tag := e.data]
            && (UniqueTags(b.entries) ==> UniqueTags(r.value.entries))
  {
    DataCountAppend(b.entries, [e]);
    ContentsNew(b.entries, e);
  }

  lemma DataCountUpdate(es: seq<Entry>, i: nat, e: Entry)
    requires i < |es|
    ensures DataCount(es[i := e]) + EntrySize(es[i]) == DataCount(es) + EntrySize(e)
  {
    DataCountSplit(es, i);
    DataCountSplit(es[i := e], i);
    assert es[i := e][..i] == es[..i] && es[i := e][i + 1..] == es[i + 1..];
  }

  lemma ContentsNew(es: seq<Entry>, e: Entry)
    requires Find(es, e.tag) == |es|
    ensures Contents(es + [e]) == Contents(es)[e.tag := e.data]
  {
    ContentsAppend(es, [e]);
    ContentsAt(es, e.tag);
    assert Contents([e]) == map[e.tag := e.data];
  }

  lemma DeleteIsMapRemoval(es: seq<Entry>, i: nat)
    requires i < |es| && UniqueTags(es)
    ensures Contents(es[..i] + es[i + 1..]) == Contents(es) - {es[i].tag}
  {
    var r, m := Contents(es[..i] + es[i + 1..]), Contents(es) - {es[i].tag};
    UniqueFind(es, i);
    forall t: Tag
      ensures t in r <==> t in m
      ensures t in m ==> r[t] == m[t]
    {
      DeleteAt(es, i, t);
      ContentsAt(es[i + 1..], t);
    }
  }

  lemma EraseIsMapRemoval(m: Meta, tag: Tag, types: map<Tag, Type>)
    requires MetaFits(m) && Typed(Entries(m), types) && UniqueTags(Entries(m))
    ensures var r := Erase(m, tag);
            && MetaFits(r) && Typed(Entries(r), types) && UniqueTags(Entries(r))
            && Contents(Entries(r)) == Contents(Entries(m)) - {tag}
  {
    EraseFits(m, tag, types);
    EraseContents(m, tag);
  }

  lemma EraseContents(m: Meta, tag: Tag)
    requires UniqueTags(Entries(m))
    ensures UniqueTags(Entries(Erase(m, tag)))
    ensures Contents(Entries(Erase(m, tag))) == Contents(Entries(m)) - {tag}
  {
    var es, r := Entries(m), Entries(Erase(m, tag));
    var i := Find(es, tag);
    if i == |es| {
      ContentsAt(es, tag);
      assert Contents(es) - {tag} == Contents(es);
    } else {
      assert r == es[..i] + es[i + 1..];
      DeleteUnique(es, i);
      DeleteIsMapRemoval(es, i);
    }
  }

  lemma DeleteUnique(es: seq<Entry>, i: nat)
    requires i < |es| && UniqueTags(es)
    ensures UniqueTags(es[..i] + es[i + 1..])
  {
    var r := es[..i] + es[i + 1..];
    forall j, k | 0 <= j < k < |r| ensures r[j].tag != r[k].tag {
      assert r[j] == es[if j < i then j else j + 1] && r[k] == es[if k < i then k else k + 1];
    }
  }

  lemma EraseFits(m: Meta, tag: Tag, types: map<Tag, Type>)
    requires MetaFits(m) && Typed(Entries(m), types)
    ensures MetaFits(Erase(m, tag)) && Typed(Entries(Erase(m, tag)), types)
  {
    var es := Entries(m);
    var i := Find(es, tag);
    if i < |es| {
      DataCountSplit(es, i);
      DataCountAppend(es[..i], es[i + 1..]);
    }
  }

  /** With duplicate tags the map law fails: erasing leaves the tag there exactly if it was
      there twice. */
  lemma EraseUncovers(m: Meta, tag: Tag)
    ensures tag in Contents(Entries(Erase(m, tag)))
       <==> (exists i, j :: 0 <= i < j < |Entries(m)| && Entries(m)[i].tag == Entries(m)[j].tag == tag)
  {
    var es := Entries(m);
    var i := Find(es, tag);
    ContentsAt(es, tag);
    if i < |es| {
      DeleteAt(es, i, tag);
      ContentsAt(es[i + 1..], tag);
      var j := Find(es[i + 1..], tag);
      if j < |es| - i - 1 {
        assert es[i + 1 + j].tag == tag;
      } else {
        forall k | i < k < |es| ensures es[k].tag != tag {
          assert es[i + 1..][k - i - 1].tag != tag;
        }
      }
    }
  }

  lemma AppendIsMapUnion(m: Meta, other: seq<Entry>, types: map<Tag, Type>)
    requires MetaFits(m) && Typed(Entries(m), types) && Typed(other, types)
    ensures var (r, status) := Append(m, other);
            && status == OK && MetaFits(r) && Typed(Entries(r), types)
            && Contents(Entries(r)) == Contents(other) + Contents(Entries(m))
  {
    ResizeGivesRoom(m, |other|, DataCount(other));
    DataCountAppend(Entries(m), other);
    ContentsAppend(Entries(m), other);
  }

  lemma AppendEntries(m: Meta, other: seq<Entry>)
    requires MetaFits(m)
    ensures var r := Append(m, other).0; MetaFits(r) && Entries(r) == Entries(m) + other
  {
    ResizeGivesRoom(m, |other|, DataCount(other));
    DataCountAppend(Entries(m), other);
  }

  /** An entry that is appended twice is still there after it was erased. */
  lemma EraseExample(e: Entry)
    ensures var m := Append(Append(EMPTY, [e]).0, [e]).0;
            e.tag in Contents(Entries(Erase(m, e.tag)))
  {
    AppendEntries(EMPTY, [e]);
    AppendEntries(Append(EMPTY, [e]).0, [e]);
    var m := Append(Append(EMPTY, [e]).0, [e]).0;
    EraseUncovers(m, e.tag);
    assert Entries(m)[0].tag == Entries(m)[1].tag == e.tag;
  }

  // ----- Growth -----

  function Pow2(k: nat): (p: nat)
    ensures p >= 1
  {
    if k == 0 then 1 else 2 * Pow2(k - 1)
  }

  /** Capacities are at least exponential in the number of growths and at most twice the peak
      demand; a reallocation needs one of them to be outgrown. */
  predicate GrowthOk(m: Meta) {
    var g := m.growth;
    && g.reallocations <= g.entryGrowths + g.dataGrowths
    && (m.buffer.None? ==> g.entryGrowths == 0 && g.dataGrowths == 0)
    && (m.buffer.Some? ==>
          && 2 * Pow2(g.entryGrowths) - 2 <= m.buffer.value.entryCap <= 2 * g.peakEntries
          && 2 * Pow2(g.dataGrowths) - 2 <= m.buffer.value.dataCap <= 2 * g.peakData)
  }

  lemma ResizeKeepsGrowth(m: Meta, extraEntries: nat, extraData: nat)
    requires GrowthOk(m)
    ensures GrowthOk(Resize(m, extraEntries, extraData))
  {
  }

  /** A reallocation at least doubles whatever was outgrown, and shrinks nothing. */
  lemma ReallocationDoubles(b: Buffer, g: Growth, extraEntries: nat, extraData: nat)
    ensures var r := Resize(Meta(Some(b), g), extraEntries, extraData);
            var b' := r.buffer.value;
            && b'.entryCap >= b.entryCap && b'.dataCap >= b.dataCap
            && (r.growth.entryGrowths > g.entryGrowths ==> b'.entryCap >= 2 * b.entryCap + 2)
            && (r.growth.dataGrowths > g.dataGrowths ==> b'.dataCap >= 2 * b.dataCap + 2)
            && (r.growth.reallocations == g.reallocations ==> b' == b)
  {
  }

  /** The first allocation has twice the room that is demanded, and so has every capacity that is
      outgrown later: the buffer is allocated anew exactly when a later demand exceeds twice the one
      it was last allocated for. */
  lemma NextReallocationExactly(m: Meta, e: nat, d: nat, e2: nat, d2: nat)
    ensures m.buffer.None? || |Entries(m)| + e > m.buffer.value.entryCap ==>
              Resize(m, e, d).buffer.value.entryCap == (|Entries(m)| + e) + (|Entries(m)| + e)
    ensures m.buffer.None? || DataCount(Entries(m)) + d > m.buffer.value.dataCap ==>
              Resize(m, e, d).buffer.value.dataCap == (DataCount(Entries(m)) + d) + (DataCount(Entries(m)) + d)
    ensures m.buffer.None? ==>
              var r := Resize(m, e, d);
              Resize(r, e2, d2).growth.reallocations == r.growth.reallocations + (if e2 > e + e || d2 > d + d then 1 else 0)
    ensures m.buffer.Some? ==>
              (Resize(m, e, d).growth.reallocations == m.growth.reallocations + 1
               <==> |Entries(m)| + e > m.buffer.value.entryCap || DataCount(Entries(m)) + d > m.buffer.value.dataCap)
  {
  }

  /** An update asks for one entry and its data, an append for all it brings; the buffer is allocated
      anew exactly if that does not fit. */
  lemma ReallocatesExactly(m: Meta, tag: Tag, kind: Type, data: seq<int>, other: seq<Entry>)
    requires m.buffer.Some?
    ensures Update(m, tag, kind, data).0.growth.reallocations == m.growth.reallocations + 1
       <==> |Entries(m)| + 1 > m.buffer.value.entryCap
            || DataCount(Entries(m)) + DataSize(kind, |data|) > m.buffer.value.dataCap
    ensures Append(m, other).0.growth.reallocations == m.growth.reallocations + 1
       <==> |Entries(m)| + |other| > m.buffer.value.entryCap
            || DataCount(Entries(m)) + DataCount(other) > m.buffer.value.dataCap
    ensures forall t :: Erase(m, t).growth == m.growth
  {
  }

  // ----- Runs -----

  datatype Op = OpUpdate(tag: Tag, kind: Type, data: seq<int>) | OpErase(tag: Tag) | OpAppend(other: seq<Entry>)

  /** One call on an unlocked object: checkType comes first. */
  function Do(m: Meta, op: Op, types: map<Tag, Type>): (r: (Meta, Status)) {
    match op
    case OpUpdate(tag, kind, data) =>
      if tag !in types || types[tag] != kind then (m, InvalidOperation) else Update(m, tag, kind, data)
    case OpErase(tag) => (Erase(m, tag), OK)
    case OpAppend(other) => Append(m, other)
  }

  function Replay(m: Meta, ops: seq<Op>, types: map<Tag, Type>): Meta
    decreases |ops|
  {
    if ops == [] then m else Replay(Do(m, ops[0], types).0, ops[1..], types)
  }

  /** What a plain map would hold. */
  function DoMap(c: map<Tag, seq<int>>, op: Op, types: map<Tag, Type>): map<Tag, seq<int>> {
    match op
    case OpUpdate(tag, kind, data) => if tag !in types || types[tag] != kind then c else c[tag := data]
    case OpErase(tag) => c - {tag}
    case OpAppend(other) => c + Contents(other)
  }

  function ReplayMap(c: map<Tag, seq<int>>, ops: seq<Op>, types: map<Tag, Type>): map<Tag, seq<int>>
    decreases |ops|
  {
    if ops == [] then c else ReplayMap(DoMap(c, ops[0], types), ops[1..], types)
  }

  predicate OpTyped(op: Op, types: map<Tag, Type>) {
    op.OpAppend? ==> Typed(op.other, types)
  }

  /** An append brings no tag twice and none that is there already. */
  predicate FreshAppend(op: Op, c: map<Tag, seq<int>>) {
    op.OpAppend? ==> UniqueTags(op.other) && forall e :: e in op.other ==> e.tag !in c
  }

  predicate FreshAppends(c: map<Tag, seq<int>>, ops: seq<Op>, types: map<Tag, Type>)
    decreases |ops|
  {
    ops == [] || (OpTyped(ops[0], types) && FreshAppend(ops[0], c)
                  && FreshAppends(DoMap(c, ops[0], types), ops[1..], types))
  }

  predicate MapLike(m: Meta, types: map<Tag, Type>) {
    MetaFits(m) && Typed(Entries(m), types) && UniqueTags(Entries(m))
  }

  lemma {:induction false} TagsInContents(es: seq<Entry>, e: Entry)
    requires e in es
    ensures e.tag in Contents(es)
  {
    if e != es[0] {
      TagsInContents(es[1..], e);
    }
  }

  lemma {:induction false} ContentsInTags(es: seq<Entry>, t: Tag)
    requires t in Contents(es)
    ensures exists e :: e in es && e.tag == t
  {
    ContentsAt(es, t);
    assert es[Find(es, t)] in es;
  }

  lemma UniqueAppend(a: seq<Entry>, b: seq<Entry>)
    requires UniqueTags(a) && UniqueTags(b)
    requires forall i, j :: 0 <= i < |a| && 0 <= j < |b| ==> a[i].tag != b[j].tag
    ensures UniqueTags(a + b)
  {
  }

  lemma AppendFresh(m: Meta, other: seq<Entry>, types: map<Tag, Type>)
    requires MapLike(m, types) && Typed(other, types)
    requires FreshAppend(OpAppend(other), Contents(Entries(m)))
    ensures MapLike(Append(m, other).0, types)
    ensures Contents(Entries(Append(m, other).0)) == Contents(Entries(m)) + Contents(other)
  {
    var es := Entries(m);
    AppendIsMapUnion(m, other, types);
    AppendEntries(m, other);
    forall i, j | 0 <= i < |es| && 0 <= j < |other| ensures es[i].tag != other[j].tag {
      TagsInContents(es, es[i]);
      assert other[j] in other;
    }
    UniqueAppend(es, other);
    DisjointContents(other, Contents(es));
  }

  lemma DisjointContents(other: seq<Entry>, c: map<Tag, seq<int>>)
    requires forall e :: e in other ==> e.tag !in c
    ensures Contents(other) + c == c + Contents(other)
  {
    forall t | t in Contents(other) ensures t !in c {
      ContentsInTags(other, t);
    }
  }

  lemma DoIsMapStep(m: Meta, op: Op, types: map<Tag, Type>)
    requires MapLike(m, types) && OpTyped(op, types) && FreshAppend(op, Contents(Entries(m)))
    ensures MapLike(Do(m, op, types).0, types)
    ensures Contents(Entries(Do(m, op, types).0)) == DoMap(Contents(Entries(m)), op, types)
    ensures Do(m, op, types).1 != NoMemory
  {
    match op
    case OpUpdate(tag, kind, data) =>
      if tag in types && types[tag] == kind {
        UpdateIsMapUpdate(m, tag, data, types);
      }
    case OpErase(tag) => EraseIsMapRemoval(m, tag, types);
    case OpAppend(other) =>
      AppendFresh(m, other, types);
      AppendIsMapUnion(m, other, types);
  }

  lemma {:induction false} ReplayIsMap(m: Meta, ops: seq<Op>, types: map<Tag, Type>)
    requires MapLike(m, types) && FreshAppends(Contents(Entries(m)), ops, types)
    ensures MapLike(Replay(m, ops, types), types)
    ensures Contents(Entries(Replay(m, ops, types))) == ReplayMap(Contents(Entries(m)), ops, types)
    decreases |ops|
  {
    if ops != [] {
      DoIsMapStep(m, ops[0], types);
      ReplayIsMap(Do(m, ops[0], types).0, ops[1..], types);
    }
  }

  lemma DoFits(m: Meta, op: Op, types: map<Tag, Type>)
    requires MetaFits(m) && Typed(Entries(m), types) && OpTyped(op, types)
    ensures var (r, status) := Do(m, op, types);
            MetaFits(r) && Typed(Entries(r), types) && status != NoMemory
  {
    match op
    case OpUpdate(tag, kind, data) =>
      if tag in types && types[tag] == kind {
        UpdateIsMapUpdate(m, tag, data, types);
      }
    case OpErase(tag) => EraseFits(m, tag, types);
    case OpAppend(other) =>
      AppendIsMapUnion(m, other, types);
  }

  lemma DoGrows(m: Meta, op: Op, types: map<Tag, Type>)
    requires GrowthOk(m)
    ensures GrowthOk(Do(m, op, types).0)
  {
    match op
    case OpUpdate(tag, kind, data) => ResizeKeepsGrowth(m, 1, DataSize(kind, |data|));
    case OpErase(tag) =>
    case OpAppend(other) => ResizeKeepsGrowth(m, |other|, DataCount(other));
  }

  lemma {:induction false} ReplayGrows(m: Meta, ops: seq<Op>, types: map<Tag, Type>)
    requires GrowthOk(m)
    ensures GrowthOk(Replay(m, ops, types))
    decreases |ops|
  {
    if ops != [] {
      DoGrows(m, ops[0], types);
      ReplayGrows(Do(m, ops[0], types).0, ops[1..], types);
    }
  }

  /** The first call of a run that could fail for lack of space. */
  predicate NeverOutOfSpace(m: Meta, ops: seq<Op>, types: map<Tag, Type>)
    decreases |ops|
  {
    ops == [] || (Do(m, ops[0], types).1 != NoMemory
                  && NeverOutOfSpace(Do(m, ops[0], types).0, ops[1..], types))
  }

  lemma {:induction false} ReplayFits(m: Meta, ops: seq<Op>, types: map<Tag, Type>)
    requires MetaFits(m) && Typed(Entries(m), types)
    requires forall op :: op in ops ==> OpTyped(op, types)
    ensures NeverOutOfSpace(m, ops, types)
    decreases |ops|
  {
    if ops != [] {
      DoFits(m, ops[0], types);
      ReplayFits(Do(m, ops[0], types).0, ops[1..], types);
    }
  }

  // ----- Main results -----

  /** From empty, every run of updates, erasures and fresh appends makes the buffer agree with
      a plain map. */
  lemma BehavesAsMap(ops: seq<Op>, types: map<Tag, Type>)
    requires FreshAppends(map[], ops, types)
    ensures Contents(Entries(Replay(EMPTY, ops, types))) == ReplayMap(map[], ops, types)
    ensures UniqueTags(Entries(Replay(EMPTY, ops, types)))
  {
    ReplayIsMap(EMPTY, ops, types);
  }

  /** No call of any run, whatever it appends, fails for lack of space. */
  lemma ReservedRoomSuffices(ops: seq<Op>, types: map<Tag, Type>)
    requires forall op :: op in ops ==> OpTyped(op, types)
    ensures NeverOutOfSpace(EMPTY, ops, types)
  {
    ReplayFits(EMPTY, ops, types);
  }

  /** Over every run the number of reallocations is at most logarithmic in the peak demands:
      it is a sum e + d with 2^e at most the peak number of entries plus one, and 2^d at most
      the peak number of data bytes plus one. */
  lemma FewReallocations(ops: seq<Op>, types: map<Tag, Type>)
    ensures var g := Replay(EMPTY, ops, types).growth;
            && g.reallocations <= g.entryGrowths + g.dataGrowths
            && Pow2(g.entryGrowths) <= g.peakEntries + 1
            && Pow2(g.dataGrowths) <= g.peakData + 1
    ensures var m := Replay(EMPTY, ops, types);
            m.buffer.Some? ==> && m.buffer.value.entryCap <= 2 * m.growth.peakEntries
                               && m.buffer.value.dataCap <= 2 * m.growth.peakData
  {
    ReplayGrows(EMPTY, ops, types);
  }
}
