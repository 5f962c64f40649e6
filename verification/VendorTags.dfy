/**
 camera/VendorTagDescriptor.cpp: the tables of vendor tags.  Three maps lead from tags to
 names, types and section numbers, a sorted list holds the section names, and a two-level
 index leads back from section and name to the tag.  The index is not written to a parcel.
 */
module VendorTags {
  import opened Wrappers
  import opened StringOrder

  /** Two of these are no status of the code: `OutOfRange`, a section number led outside the section
      list; `Fatal`, the process ended over a list without room. */
  datatype Status = OK | BadValue | NotEnoughData | OutOfRange | Fatal

  type Tag = nat

  const BOUNDARY := 0x8000_0000   // CAMERA_METADATA_VENDOR_TAG_BOUNDARY
  const NUM_TYPES := 6

  datatype Descriptor = Descriptor(
    tagCount: int,                         // mTagCount
    tags: seq<Tag>,                        // the keys of the three maps, in order
    names: map<Tag, string>,               // mTagToNameMap
    kinds: map<Tag, int>,                  // mTagToTypeMap
    sectionOf: map<Tag, nat>,              // mTagToSectionMap
    sections: seq<string>,                 // mSections
    reverse: map<string, map<string, Tag>> // mReverseMapping
  )

  const NONE := Descriptor(0, [], map[], map[], map[], [], map[])

  /** vendor_tag_ops_t: the tags and what is said about each of them; a null name or section is
      None. */
  datatype Ops = Ops(tags: seq<Tag>, name: Tag -> Option<string>, section: Tag -> Option<string>,
                     kind: Tag -> int)

  predicate TagOk(ops: Ops, t: Tag) {
    t >= BOUNDARY && ops.name(t).Some? && ops.section(t).Some? && 0 <= ops.kind(t) < NUM_TYPES
  }

  predicate OpsOk(ops: Ops, tags: seq<Tag>) {
    forall i :: 0 <= i < |tags| ==> TagOk(ops, tags[i])
  }

  lemma OpsOkNext(ops: Ops, tags: seq<Tag>, i: nat)
    requires i < |tags| && OpsOk(ops, tags[..i]) && TagOk(ops, tags[i])
    ensures OpsOk(ops, tags[..i + 1])
  {
    assert forall k :: 0 <= k < i ==> tags[..i][k] == tags[..i + 1][k];
  }

  // ----- Sorted lists -----

  predicate Ascending(ss: seq<string>) {
    forall i, j :: 0 <= i < j < |ss| ==> Less(ss[i], ss[j])
  }

  /** SortedVector::add: an element that is there already is replaced by itself. */
  function AddSection(ss: seq<string>, s: string): seq<string> {
    if ss == [] then [s]
    else if ss[0] == s then ss
    else if Less(s, ss[0]) then [s] + ss
    else [ss[0]] + AddSection(ss[1..], s)
  }

  lemma {:induction false} AddMembers(ss: seq<string>, s: string, x: string)
    ensures x in AddSection(ss, s) <==> x in ss || x == s
  {
    if ss != [] {
      AddMembers(ss[1..], s, x);
      assert x in ss <==> x == ss[0] || x in ss[1..];
    }
  }

  /** `s` comes before everything in `ss`. */
  predicate BeforeAll(s: string, ss: seq<string>) {
    forall i :: 0 <= i < |ss| ==> Less(s, ss[i])
  }

  lemma AscendingTail(ss: seq<string>)
    requires Ascending(ss) && ss != []
    ensures Ascending(ss[1..]) && BeforeAll(ss[0], ss[1..])
  {
    var r := ss[1..];
    forall i, j | 0 <= i < j < |r| ensures Less(r[i], r[j]) {
      assert Less(ss[i + 1], ss[j + 1]);
    }
    forall i | 0 <= i < |r| ensures Less(ss[0], r[i]) {
      assert Less(ss[0], ss[i + 1]);
    }
  }

  lemma AscendingCons(s: string, ss: seq<string>)
    requires Ascending(ss) && BeforeAll(s, ss)
    ensures Ascending([s] + ss)
  {
    var r := [s] + ss;
    forall i, j | 0 <= i < j < |r| ensures Less(r[i], r[j]) {
      assert r[j] == ss[j - 1];
      assert i > 0 ==> r[i] == ss[i - 1];
    }
  }

  lemma {:induction false} AddBeforeAll(ss: seq<string>, s: string, low: string)
    requires BeforeAll(low, ss) && Less(low, s)
    ensures BeforeAll(low, AddSection(ss, s))
  {
    if ss != [] && ss[0] != s && !Less(s, ss[0]) {
      assert forall i :: 0 <= i < |ss[1..]| ==> ss[1..][i] == ss[i + 1];
      AddBeforeAll(ss[1..], s, low);
    }
  }

  lemma {:induction false} AddAscending(ss: seq<string>, s: string)
    requires Ascending(ss)
    ensures Ascending(AddSection(ss, s))
  {
    if ss != [] && ss[0] != s {
      AscendingTail(ss);
      if Less(s, ss[0]) {
        forall i | 0 <= i < |ss| ensures Less(s, ss[i]) {
          if i > 0 {
            LessTransitive(s, ss[0], ss[i]);
          }
        }
        AscendingCons(s, ss);
      } else {
        LessTotal(s, ss[0]);
        AddAscending(ss[1..], s);
        AddBeforeAll(ss[1..], s, ss[0]);
        AscendingCons(ss[0], AddSection(ss[1..], s));
      }
    }
  }

  /** Adding an element behind all others appends it. */
  lemma {:induction false} AddLast(ss: seq<string>, s: string)
    requires forall i :: 0 <= i < |ss| ==> Less(ss[i], s)
    ensures AddSection(ss, s) == ss + [s]
  {
    if ss != [] {
      LessIrreflexive(s);
      if Less(s, ss[0]) {
        LessTransitive(s, ss[0], s);
      }
      assert ss == [ss[0]] + ss[1..];
      AddLast(ss[1..], s);
    }
  }

  /** indexOf in a sorted vector; the number of elements if there is none. */
  function IndexOf(ss: seq<string>, s: string): (i: nat)
    ensures i <= |ss|
    ensures i < |ss| <==> s in ss
    ensures i < |ss| ==> ss[i] == s
  {
    if ss == [] then 0 else if ss[0] == s then 0 else 1 + IndexOf(ss[1..], s)
  }

  // ----- Keys in order -----

  predicate Increasing(ts: seq<Tag>) {
    forall i, j :: 0 <= i < j < |ts| ==> ts[i] < ts[j]
  }

  /** KeyedVector::add on the sorted keys. */
  function AddTag(ts: seq<Tag>, t: Tag): seq<Tag> {
    if ts == [] then [t]
    else if ts[0] == t then ts
    else if t < ts[0] then [t] + ts
    else [ts[0]] + AddTag(ts[1..], t)
  }

  lemma {:induction false} AddTagMembers(ts: seq<Tag>, t: Tag, x: Tag)
    ensures x in AddTag(ts, t) <==> x in ts || x == t
  {
    if ts != [] {
      AddTagMembers(ts[1..], t, x);
      assert x in ts <==> x == ts[0] || x in ts[1..];
    }
  }

  lemma {:induction false} AddTagIncreasing(ts: seq<Tag>, t: Tag)
    requires Increasing(ts)
    ensures Increasing(AddTag(ts, t))
  {
    if ts != [] && ts[0] < t {
      AddTagIncreasing(ts[1..], t);
      var r := AddTag(ts[1..], t);
      forall i | 0 <= i < |r| ensures ts[0] < r[i] {
        AddTagMembers(ts[1..], t, r[i]);
        assert r[i] in r;
        if r[i] != t {
          var k :| 0 <= k < |ts[1..]| && ts[1..][k] == r[i];
          assert ts[k + 1] == r[i];
        }
      }
    }
  }

  lemma {:induction false} AddTagLast(ts: seq<Tag>, t: Tag)
    requires forall i :: 0 <= i < |ts| ==> ts[i] < t
    ensures AddTag(ts, t) == ts + [t]
  {
    if ts != [] {
      assert ts == [ts[0]] + ts[1..];
      AddTagLast(ts[1..], t);
    }
  }

  // ----- The reverse index -----

  /** Add a tag under its section and name; the latest one with the same label wins. */
  function AddReverse(rev: map<string, map<string, Tag>>, s: string, n: string, t: Tag)
    : map<string, map<string, Tag>>
  {
    rev[s := (if s in rev then rev[s] else map[])[n := t]]
  }

  /** lookupTag. */
  function Lookup(rev: map<string, map<string, Tag>>, s: string, n: string): Option<Tag> {
    if s in rev && n in rev[s] then Some(rev[s][n]) else None
  }

  lemma AddReverseAt(rev: map<string, map<string, Tag>>, s: string, n: string, t: Tag, s': string, n': string)
    ensures Lookup(AddReverse(rev, s, n, t), s', n')
         == if s == s' && n == n' then Some(t) else Lookup(rev, s', n')
  {
  }

  /** No section is listed without a tag in it. */
  predicate NoEmptySection(rev: map<string, map<string, Tag>>) {
    forall s :: s in rev ==> rev[s] != map[]
  }

  /** Such an index is determined by what it answers. */
  lemma SameAnswers(a: map<string, map<string, Tag>>, b: map<string, map<string, Tag>>)
    requires NoEmptySection(a) && NoEmptySection(b)
    requires forall s, n :: Lookup(a, s, n) == Lookup(b, s, n)
    ensures a == b
  {
    forall s
      ensures s in a <==> s in b
      ensures s in a ==> a[s] == b[s]
    {
      if s in a {
        var n :| n in a[s];
        assert Lookup(a, s, n).Some?;
      }
      if s in b {
        var n :| n in b[s];
        assert Lookup(b, s, n).Some?;
      }
      if s in a {
        forall n
          ensures n in a[s] <==> n in b[s]
          ensures n in a[s] ==> a[s][n] == b[s][n]
        {
          assert Lookup(a, s, n) == Lookup(b, s, n);
        }
        assert a[s] == b[s];
      }
    }
  }

  // ----- Building from ops -----

  function SectionOf(ops: Ops, t: Tag): string {
    ops.section(t).GetOr("")
  }

  function NameOf(ops: Ops, t: Tag): string {
    ops.name(t).GetOr("")
  }

  function AllTags(tags: seq<Tag>): seq<Tag> {
    if tags == [] then [] else AddTag(AllTags(tags[..|tags| - 1]), tags[|tags| - 1])
  }

  function AllSections(ops: Ops, tags: seq<Tag>): seq<string> {
    if tags == [] then []
    else AddSection(AllSections(ops, tags[..|tags| - 1]), SectionOf(ops, tags[|tags| - 1]))
  }

  function Reverse(ops: Ops, tags: seq<Tag>): map<string, map<string, Tag>> {
    if tags == [] then map[]
    else
      var t := tags[|tags| - 1];
      AddReverse(Reverse(ops, tags[..|tags| - 1]), SectionOf(ops, t), NameOf(ops, t), t)
  }

  /** createDescriptorFromOps, for ops that pass its checks. */
  function Build(ops: Ops): Descriptor {
    var ts := ops.tags;
    var ss := AllSections(ops, ts);
    Descriptor(|ts|, AllTags(ts), NameMap(ops, ts), KindMap(ops, ts), SectionMap(ops, ts, ss),
               ss, Reverse(ops, ts))
  }

  function NameMap(ops: Ops, ts: seq<Tag>): map<Tag, string> {
    map t | t in ts :: NameOf(ops, t)
  }

  function KindMap(ops: Ops, ts: seq<Tag>): map<Tag, int> {
    map t | t in ts :: ops.kind(t)
  }

  function SectionMap(ops: Ops, ts: seq<Tag>, ss: seq<string>): map<Tag, nat> {
    map t | t in ts :: IndexOf(ss, SectionOf(ops, t))
  }

  /** One more tag in each table. */
  lemma NextTags(ts: seq<Tag>, i: nat)
    requires i < |ts|
    ensures ts[..i + 1][..i] == ts[..i]
    ensures forall t :: t in ts[..i + 1] <==> t in ts[..i] || t == ts[i]
  {
    assert ts[..i + 1] == ts[..i] + [ts[i]];
  }

  lemma NamesNext(ops: Ops, ts: seq<Tag>, i: nat)
    requires i < |ts|
    ensures NameMap(ops, ts[..i + 1]) == NameMap(ops, ts[..i])[ts[i] := NameOf(ops, ts[i])]
  {
    NextTags(ts, i);
  }

  lemma KindsNext(ops: Ops, ts: seq<Tag>, i: nat)
    requires i < |ts|
    ensures KindMap(ops, ts[..i + 1]) == KindMap(ops, ts[..i])[ts[i] := ops.kind(ts[i])]
  {
    NextTags(ts, i);
  }

  lemma SectionsNext(ops: Ops, ts: seq<Tag>, i: nat, ss: seq<string>)
    requires i < |ts|
    ensures SectionMap(ops, ts[..i + 1], ss)
         == SectionMap(ops, ts[..i], ss)[ts[i] := IndexOf(ss, SectionOf(ops, ts[i]))]
  {
    NextTags(ts, i);
  }

  lemma TablesNext(ops: Ops, ts: seq<Tag>, i: nat, ss: seq<string>)
    requires i < |ts|
    ensures ts[..i + 1][..i] == ts[..i]
    ensures NameMap(ops, ts[..i + 1]) == NameMap(ops, ts[..i])[ts[i] := NameOf(ops, ts[i])]
    ensures KindMap(ops, ts[..i + 1]) == KindMap(ops, ts[..i])[ts[i] := ops.kind(ts[i])]
    ensures SectionMap(ops, ts[..i + 1], ss)
         == SectionMap(ops, ts[..i], ss)[ts[i] := IndexOf(ss, SectionOf(ops, ts[i]))]
  {
    NamesNext(ops, ts, i);
    KindsNext(ops, ts, i);
    SectionsNext(ops, ts, i, ss);
  }

  lemma {:induction false} AllTagsAre(tags: seq<Tag>)
    ensures Increasing(AllTags(tags))
    ensures forall x :: x in AllTags(tags) <==> x in tags
  {
    if tags != [] {
      var front, t := tags[..|tags| - 1], tags[|tags| - 1];
      AllTagsAre(front);
      AddTagIncreasing(AllTags(front), t);
      forall x ensures x in AllTags(tags) <==> x in tags {
        AddTagMembers(AllTags(front), t, x);
        assert tags == front + [t];
      }
    }
  }

  lemma {:induction false} AllSectionsAre(ops: Ops, tags: seq<Tag>)
    ensures Ascending(AllSections(ops, tags))
    ensures forall i :: 0 <= i < |tags| ==> SectionOf(ops, tags[i]) in AllSections(ops, tags)
    ensures forall s :: s in AllSections(ops, tags) ==> exists t :: t in tags && SectionOf(ops, t) == s
  {
    if tags != [] {
      var front, t := tags[..|tags| - 1], tags[|tags| - 1];
      AllSectionsAre(ops, front);
      AddAscending(AllSections(ops, front), SectionOf(ops, t));
      forall i | 0 <= i < |tags| ensures SectionOf(ops, tags[i]) in AllSections(ops, tags) {
        AddMembers(AllSections(ops, front), SectionOf(ops, t), SectionOf(ops, tags[i]));
        assert i < |front| ==> front[i] == tags[i];
      }
      forall s | s in AllSections(ops, tags) ensures exists u :: u in tags && SectionOf(ops, u) == s {
        AddMembers(AllSections(ops, front), SectionOf(ops, t), s);
        if s == SectionOf(ops, t) {
          assert t in tags;
        } else {
          var u :| u in front && SectionOf(ops, u) == s;
          assert u in tags;
        }
      }
    }
  }

  predicate HasLabel(ops: Ops, t: Tag, s: string, n: string) {
    SectionOf(ops, t) == s && NameOf(ops, t) == n
  }

  /** The last tag with a label. */
  function Last(ops: Ops, tags: seq<Tag>, s: string, n: string): Option<Tag> {
    if tags == [] then None
    else if HasLabel(ops, tags[|tags| - 1], s, n) then Some(tags[|tags| - 1])
    else Last(ops, tags[..|tags| - 1], s, n)
  }

  lemma {:induction false} ReverseAnswers(ops: Ops, tags: seq<Tag>, s: string, n: string)
    ensures Lookup(Reverse(ops, tags), s, n) == Last(ops, tags, s, n)
  {
    if tags != [] {
      var front, t := tags[..|tags| - 1], tags[|tags| - 1];
      ReverseAnswers(ops, front, s, n);
      AddReverseAt(Reverse(ops, front), SectionOf(ops, t), NameOf(ops, t), t, s, n);
    }
  }

  lemma {:induction false} ReverseNoEmpty(ops: Ops, tags: seq<Tag>)
    ensures NoEmptySection(Reverse(ops, tags))
  {
    if tags != [] {
      var front, t := tags[..|tags| - 1], tags[|tags| - 1];
      ReverseNoEmpty(ops, front);
      assert NameOf(ops, t) in Reverse(ops, tags)[SectionOf(ops, t)];
    }
  }

  lemma {:induction false} LastIsOne(ops: Ops, tags: seq<Tag>, s: string, n: string)
    ensures Last(ops, tags, s, n).Some? ==>
              Last(ops, tags, s, n).value in tags && HasLabel(ops, Last(ops, tags, s, n).value, s, n)
    ensures Last(ops, tags, s, n).None? ==> forall t :: t in tags ==> !HasLabel(ops, t, s, n)
  {
    if tags != [] {
      var front, t := tags[..|tags| - 1], tags[|tags| - 1];
      LastIsOne(ops, front, s, n);
      assert tags == front + [t];
    }
  }

  predicate DistinctLabels(ops: Ops, tags: seq<Tag>) {
    forall t, u :: t in tags && u in tags && HasLabel(ops, t, SectionOf(ops, u), NameOf(ops, u)) ==> t == u
  }

  // ----- Getters and lookup -----

  function GetTagName(d: Descriptor, t: Tag): Option<string> {
    if t in d.names then Some(d.names[t]) else None
  }

  function GetTagType(d: Descriptor, t: Tag): int {
    if t in d.names && t in d.kinds then d.kinds[t] else -1
  }

  function GetSectionName(d: Descriptor, t: Tag): Option<string> {
    if t in d.sectionOf && d.sectionOf[t] < |d.sections| then Some(d.sections[d.sectionOf[t]]) else None
  }

  lemma BuiltGetters(ops: Ops, t: Tag)
    ensures GetTagName(Build(ops), t) == if t in ops.tags then Some(NameOf(ops, t)) else None
    ensures GetSectionName(Build(ops), t) == if t in ops.tags then Some(SectionOf(ops, t)) else None
    ensures GetTagType(Build(ops), t) == if t in ops.tags then ops.kind(t) else -1
    ensures t in ops.tags ==> Build(ops).sectionOf[t] < |Build(ops).sections|
  {
    AllSectionsAre(ops, ops.tags);
    if t in ops.tags {
      var i :| 0 <= i < |ops.tags| && ops.tags[i] == t;
      assert SectionOf(ops, ops.tags[i]) in AllSections(ops, ops.tags);
    }
  }

  /** For ops that pass the checks the getters answer literally what the ops said. */
  lemma BuiltSaysOps(ops: Ops, t: Tag)
    requires OpsOk(ops, ops.tags) && t in ops.tags
    ensures var d := Build(ops);
            && ops.name(t).Some? && GetTagName(d, t) == ops.name(t)
            && ops.section(t).Some? && GetSectionName(d, t) == ops.section(t)
            && GetTagType(d, t) == ops.kind(t) && 0 <= ops.kind(t) < 6 && t >= 0x8000_0000
  {
    BuiltGetters(ops, t);
    var i :| 0 <= i < |ops.tags| && ops.tags[i] == t;
    assert TagOk(ops, ops.tags[i]);
  }

  /** An answer has exactly the section and the name that were asked for, and there is an answer
      whenever some tag has them. */
  lemma LookupSound(ops: Ops, s: string, n: string)
    ensures var d := Build(ops);
            && (Lookup(d.reverse, s, n).Some? ==>
                  && GetSectionName(d, Lookup(d.reverse, s, n).value) == Some(s)
                  && GetTagName(d, Lookup(d.reverse, s, n).value) == Some(n))
            && (Lookup(d.reverse, s, n).None? ==>
                  forall t :: !(GetSectionName(d, t) == Some(s) && GetTagName(d, t) == Some(n)))
  {
    var d := Build(ops);
    ReverseAnswers(ops, ops.tags, s, n);
    LastIsOne(ops, ops.tags, s, n);
    if Lookup(d.reverse, s, n).Some? {
      BuiltGetters(ops, Lookup(d.reverse, s, n).value);
    } else {
      forall t ensures !(GetSectionName(d, t) == Some(s) && GetTagName(d, t) == Some(n)) {
        BuiltGetters(ops, t);
      }
    }
  }

  predicate FoundByLabel(ops: Ops, t: Tag) {
    Lookup(Build(ops).reverse, SectionOf(ops, t), NameOf(ops, t)) == Some(t)
  }

  /** Lookup undoes the getters for every tag exactly if no two tags share section and name. */
  lemma LookupInverseExactly(ops: Ops)
    ensures (forall t :: t in ops.tags ==> FoundByLabel(ops, t)) <==> DistinctLabels(ops, ops.tags)
  {
    if DistinctLabels(ops, ops.tags) {
      forall t | t in ops.tags ensures FoundByLabel(ops, t) {
        ReverseAnswers(ops, ops.tags, SectionOf(ops, t), NameOf(ops, t));
        LastIsOne(ops, ops.tags, SectionOf(ops, t), NameOf(ops, t));
        assert HasLabel(ops, t, SectionOf(ops, t), NameOf(ops, t));
      }
    }
    if forall t :: t in ops.tags ==> FoundByLabel(ops, t) {
      forall t, u | t in ops.tags && u in ops.tags && HasLabel(ops, t, SectionOf(ops, u), NameOf(ops, u))
        ensures t == u
      {
        assert FoundByLabel(ops, t) && FoundByLabel(ops, u);
      }
    }
  }
}
