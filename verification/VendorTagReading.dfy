/**
 Which parcels readFromParcel of camera/VendorTagDescriptor.cpp accepts, and what the descriptor
 holds that it makes of them.
 */
module VendorTagReading {
  import opened Arithmetic
  import opened StringOrder
  import opened VendorTagParcels
  import opened VendorTagWire
  import opened VendorTags
  import opened Wrappers

  // ----- Accepted parcels -----

  /** A tag of a vendor, one of the six types, a name and a section number are next. */
  predicate EntryNext(p: seq<Token>) {
    && |p| >= 4 && p[0].I? && p[0].value >= 0x8000_0000 && p[1].I? && p[1].value < 6
    && p[2].S? && p[2].text != "" && p[3].I?
  }

  predicate EntriesNext(p: seq<Token>, n: nat) {
    n == 0 || (EntryNext(p) && EntriesNext(p[4..], n - 1))
  }

  /** The largest section number of `n` entries. */
  function Largest(p: seq<Token>, n: nat): nat
    requires EntriesNext(p, n)
  {
    if n == 0 then 0 else Max(p[3].value, Largest(p[4..], n - 1))
  }

  lemma {:induction false} EntriesLong(p: seq<Token>, n: nat)
    requires EntriesNext(p, n)
    ensures 4 * n <= |p|
  {
    if n > 0 {
      EntriesLong(p[4..], n - 1);
    }
  }

  /** A number of tags, the tags, and, if there are any, a number of sections that covers the section
      numbers and is not zero, the names of the sections, and no number that leads outside. */
  predicate Accepted(p: seq<Token>) {
    && p != [] && p[0].I? && p[0].value < 0x8000_0000 && EntriesNext(p[1..], p[0].value)
    && (p[0].value > 0 ==>
          var q := Behind(p);
          && q != [] && q[0].I? && q[0].value > 0 && q[0].value >= (Largest(p[1..], p[0].value) + 1) % WORD
          && NamesOk(q[1..], q[0].value) && !LeadsOut(p))
  }

  /** What is behind the tags. */
  function Behind(p: seq<Token>): seq<Token>
    requires p != [] && p[0].I? && EntriesNext(p[1..], p[0].value)
  {
    EntriesLong(p[1..], p[0].value);
    p[1..][4 * p[0].value..]
  }

  lemma EntryExactly(r: Reader)
    requires r.status == OK
    ensures ReadTag(r).status == OK <==> EntryNext(r.rest)
    ensures EntryNext(r.rest) ==> ReadTag(r).rest == r.rest[4..] && ReadTag(r).most == Max(r.most, r.rest[3].value)
  {
  }

  lemma {:induction false} TagsExactly(r: Reader, n: nat)
    requires r.status == OK
    ensures ReadTags(r, n).status == OK <==> EntriesNext(r.rest, n)
    ensures EntriesNext(r.rest, n) ==>
              && 4 * n <= |r.rest| && ReadTags(r, n).rest == r.rest[4 * n..]
              && ReadTags(r, n).most == Max(r.most, Largest(r.rest, n))
    decreases n
  {
    if n > 0 {
      var r1 := ReadTag(r);
      EntryExactly(r);
      if r1.status == OK {
        TagsExactly(r1, n - 1);
        if EntriesNext(r.rest, n) {
          EntriesLong(r.rest, n);
          assert r.rest[4..][4 * (n - 1)..] == r.rest[4 * n..];
        }
      } else {
        assert ReadTags(r, n) == ReadTags(r1, n - 1) == r1;
      }
    }
  }

  lemma RestAccepted(r: Reader, n: nat, ts: seq<Tag>)
    requires r.status == OK && n > 0 && r.desc.sections == []
    ensures ReadRest(r, n, ts).status == OK || ReadRest(r, n, ts).status == OutOfRange
       <==> r.rest != [] && r.rest[0].I? && r.rest[0].value > 0 && r.rest[0].value >= Needed(r.most)
            && NamesOk(r.rest[1..], r.rest[0].value)
  {
    if r.rest != [] && r.rest[0].I? {
      assert Elements(r.desc.sections) == {};
      SectionsExactly(r.(rest := r.rest[1..]), r.rest[0].value);
    }
  }

  /** For every parcel: it is read exactly if it is of this form. */
  lemma AcceptedExactly(p: seq<Token>)
    ensures Read(p).status == OK <==> Accepted(p)
  {
    LeavesRangeExactly(p);
    if p != [] && p[0].I? && p[0].value < BOUNDARY {
      var n, r0 := p[0].value, Reader(OK, p[1..], NONE.(tagCount := p[0].value), 0);
      TagsExactly(r0, n);
      TagsLeaveSections(r0, n);
      if n > 0 && AfterTags(p).status == OK {
        RestAccepted(AfterTags(p), n, TagsRead(p[1..], n));
      }
    }
  }

  /** A tag below the vendors' range, or a type that does not exist, is next. */
  predicate BadNext(p: seq<Token>) {
    |p| >= 1 && p[0].I? && (p[0].value < 0x8000_0000 || (|p| >= 2 && p[1].I? && p[1].value >= 6))
  }

  /** The first of `n` entries that is not right is bad in this way. */
  predicate BadAmong(p: seq<Token>, n: nat) {
    n > 0 && (BadNext(p) || (EntryNext(p) && BadAmong(p[4..], n - 1)))
  }

  lemma {:induction false} BadTags(r: Reader, n: nat)
    requires r.status == OK
    ensures ReadTags(r, n).status == BadValue <==> BadAmong(r.rest, n)
    decreases n
  {
    if n > 0 {
      var r1 := ReadTag(r);
      EntryExactly(r);
      if r1.status == OK {
        BadTags(r1, n - 1);
      } else {
        assert ReadTags(r, n) == ReadTags(r1, n - 1) == r1;
      }
    }
  }

  lemma BadRest(r: Reader, n: nat, ts: seq<Tag>)
    requires r.status == OK && n > 0 && r.desc.sections == []
    ensures ReadRest(r, n, ts).status == BadValue
       <==> r.rest != [] && r.rest[0].I? && r.rest[0].value < Needed(r.most)
  {
    if r.rest != [] && r.rest[0].I? {
      assert Elements(r.desc.sections) == {};
      SectionsExactly(r.(rest := r.rest[1..]), r.rest[0].value);
    }
  }

  /** A parcel is refused as a bad value exactly if its number of tags is too large, its first wrong
      entry has a bad tag or type, or its number of sections does not cover the section numbers. */
  lemma BadExactly(p: seq<Token>)
    ensures Read(p).status == BadValue
       <==> p != [] && p[0].I?
            && (p[0].value >= 0x8000_0000 || BadAmong(p[1..], p[0].value)
                || (EntriesNext(p[1..], p[0].value) && p[0].value > 0 && Behind(p) != [] && Behind(p)[0].I?
                    && Behind(p)[0].value < (Largest(p[1..], p[0].value) + 1) % WORD))
  {
    if p != [] && p[0].I? && p[0].value < BOUNDARY {
      var n, r0 := p[0].value, Reader(OK, p[1..], NONE.(tagCount := p[0].value), 0);
      BadTags(r0, n);
      TagsExactly(r0, n);
      TagsLeaveSections(r0, n);
      if n > 0 && AfterTags(p).status == OK {
        BadRest(AfterTags(p), n, TagsRead(p[1..], n));
        NotBoth(p[1..], n);
      }
    }
  }

  lemma {:induction false} NotBoth(p: seq<Token>, n: nat)
    requires EntriesNext(p, n)
    ensures !BadAmong(p, n)
  {
    if n > 0 {
      NotBoth(p[4..], n - 1);
    }
  }

  // ----- What is read -----

  /** What the parcel says about every tag; a later entry for a tag replaces an earlier one. */
  function EntriesIn(p: seq<Token>, n: nat): map<Tag, (string, nat, nat)>
    requires EntriesNext(p, n)
  {
    if n == 0 then map[]
    else map[p[0].value := (p[2].text, p[1].value, p[3].value)] + EntriesIn(p[4..], n - 1)
  }

  /** The tables of a descriptor say this about the tags, and nothing about other tags. */
  ghost predicate Says(d: Descriptor, m: map<Tag, (string, nat, nat)>) {
    && Increasing(d.tags) && (forall t :: t in d.tags <==> t in m)
    && (forall t :: t in d.names <==> t in m) && (forall t :: t in d.kinds <==> t in m)
    && (forall t :: t in d.sectionOf <==> t in m)
    && (forall t :: t in m ==> d.names[t] == m[t].0 && d.kinds[t] == m[t].1 && d.sectionOf[t] == m[t].2)
  }

  lemma SaysMore(d: Descriptor, m: map<Tag, (string, nat, nat)>, t: Tag, kind: nat, name: string, section: nat)
    requires Says(d, m)
    ensures Says(AddEntry(d, t, kind, name, section), m[t := (name, kind, section)])
  {
    AddTagIncreasing(d.tags, t);
    forall x ensures x in AddTag(d.tags, t) <==> x in m[t := (name, kind, section)] {
      AddTagMembers(d.tags, t, x);
    }
  }

  lemma OneEntrySays(r: Reader, m: map<Tag, (string, nat, nat)>)
    requires r.status == OK && EntryNext(r.rest) && Says(r.desc, m)
    ensures ReadTag(r).status == OK && ReadTag(r).rest == r.rest[4..]
    ensures var p := r.rest; Says(ReadTag(r).desc, m[p[0].value := (p[2].text, p[1].value, p[3].value)])
  {
    var p := r.rest;
    SaysMore(r.desc, m, p[0].value, p[1].value, p[2].text, p[3].value);
  }

  lemma LaterWins<V>(m: map<Tag, V>, t: Tag, v: V, later: map<Tag, V>)
    ensures m[t := v] + later == m + (map[t := v] + later)
  {
  }

  lemma {:induction false} TagsSay(r: Reader, n: nat, m: map<Tag, (string, nat, nat)>)
    requires r.status == OK && EntriesNext(r.rest, n) && Says(r.desc, m)
    ensures Says(ReadTags(r, n).desc, m + EntriesIn(r.rest, n))
    decreases n
  {
    if n == 0 {
      assert m + map[] == m;
    } else {
      var p := r.rest;
      var entry := (p[2].text, p[1].value, p[3].value);
      OneEntrySays(r, m);
      TagsSay(ReadTag(r), n - 1, m[p[0].value := entry]);
      LaterWins(m, p[0].value, entry, EntriesIn(p[4..], n - 1));
    }
  }

  lemma {:induction false} SectionsLeaveTags(r: Reader, n: nat)
    ensures var a, b := ReadSections(r, n).desc, r.desc;
            a == b.(sections := a.sections)
    decreases n
  {
    if n > 0 && r.status == OK {
      SectionsLeaveTags(ReadSection(r), n - 1);
    }
  }

  /** The descriptor that is read from an accepted parcel says about every tag what the last entry
      for it says. */
  lemma ReadSays(p: seq<Token>)
    requires Read(p).status == OK
    ensures p != [] && p[0].I? && EntriesNext(p[1..], p[0].value)
    ensures Says(Read(p).desc, EntriesIn(p[1..], p[0].value)) && Read(p).desc.tagCount == p[0].value
  {
    AcceptedExactly(p);
    AfterTagsSay(p);
    RestLeavesTags(AfterTags(p), p[0].value, TagsRead(p[1..], p[0].value));
  }

  lemma NothingSaid(n: nat)
    ensures Says(NONE.(tagCount := n), map[])
  {
  }

  lemma AfterTagsSay(p: seq<Token>)
    requires p != [] && p[0].I? && EntriesNext(p[1..], p[0].value)
    ensures AfterTags(p).status == OK
    ensures Says(AfterTags(p).desc, EntriesIn(p[1..], p[0].value)) && AfterTags(p).desc.tagCount == p[0].value
  {
    var n, r0 := p[0].value, Reader(OK, p[1..], NONE.(tagCount := p[0].value), 0);
    NothingSaid(n);
    TagsSayAll(r0, n);
  }

  lemma TagsSayAll(r: Reader, n: nat)
    requires r.status == OK && EntriesNext(r.rest, n) && Says(r.desc, map[])
    ensures var r1 := ReadTags(r, n);
            r1.status == OK && Says(r1.desc, EntriesIn(r.rest, n)) && r1.desc.tagCount == r.desc.tagCount
  {
    TagsExactly(r, n);
    TagsSay(r, n, map[]);
    assert map[] + EntriesIn(r.rest, n) == EntriesIn(r.rest, n);
    TagsKeepCount(r, n);
  }

  lemma RestLeavesTags(r: Reader, n: nat, ts: seq<Tag>)
    requires ReadRest(r, n, ts).status == OK
    ensures var d := ReadRest(r, n, ts).desc; d == r.desc.(sections := d.sections, reverse := d.reverse)
  {
    if n > 0 {
      SectionsLeaveTags(r.(rest := r.rest[1..]), r.rest[0].value);
    }
  }

  lemma {:induction false} TagsKeepCount(r: Reader, n: nat)
    ensures ReadTags(r, n).desc.tagCount == r.desc.tagCount
    decreases n
  {
    if n > 0 && r.status == OK {
      TagsKeepCount(ReadTag(r), n - 1);
    }
  }

  // ----- The index -----

  /** The index of some tags answers with one of them that has the label asked for, and answers for
      every label that one of them has. */
  ghost predicate IndexSound(d: Descriptor, ts: seq<Tag>, rev: map<string, map<string, Tag>>) {
    && (forall s, n :: Lookup(rev, s, n).Some? ==>
          var t := Lookup(rev, s, n).value;
          t in ts && GetSectionName(d, t).GetOr("") == s && GetTagName(d, t).GetOr("") == n)
    && (forall t :: t in ts ==> Lookup(rev, GetSectionName(d, t).GetOr(""), GetTagName(d, t).GetOr("")).Some?)
  }

  lemma {:induction false} ReindexSound(d: Descriptor, ts: seq<Tag>)
    ensures IndexSound(d, ts, Reindex(d, ts))
  {
    if ts != [] {
      var front, t := ts[..|ts| - 1], ts[|ts| - 1];
      var s, n := GetSectionName(d, t).GetOr(""), GetTagName(d, t).GetOr("");
      var before := Reindex(d, front);
      ReindexSound(d, front);
      assert ts == front + [t];
      forall s', n' ensures Lookup(Reindex(d, ts), s', n') == if s == s' && n == n' then Some(t) else Lookup(before, s', n') {
        AddReverseAt(before, s, n, t, s', n');
      }
    }
  }

  /** The index of the descriptor that is read answers with a tag that has exactly the section and
      the name asked for, and answers for every tag's. */
  lemma ReadIndexSound(p: seq<Token>)
    requires Read(p).status == OK && p != [] && p[0].I? && p[0].value > 0
    ensures var d := Read(p).desc;
            && (forall s, n :: Lookup(d.reverse, s, n).Some? ==>
                  var t := Lookup(d.reverse, s, n).value;
                  GetSectionName(d, t) == Some(s) && GetTagName(d, t) == Some(n))
            && (forall t :: t in d.tags ==>
                  && GetSectionName(d, t).Some? && GetTagName(d, t).Some?
                  && Lookup(d.reverse, GetSectionName(d, t).value, GetTagName(d, t).value).Some?)
  {
    AcceptedExactly(p);
    ReadSays(p);
    var d, n := Read(p).desc, p[0].value;
    var ts := TagsRead(p[1..], n);
    RestIndex(AfterTags(p), n, ts);
    ReindexSound(d, ts);
    TagsAreRead(p[1..], n);
    forall t | t in ts ensures t in d.names && GetSectionName(d, t).Some? {
      var i :| 0 <= i < |ts| && ts[i] == t;
    }
  }

  lemma RestIndex(r: Reader, n: nat, ts: seq<Tag>)
    requires r.status == OK && n > 0 && ReadRest(r, n, ts).status == OK
    ensures var d := ReadRest(r, n, ts).desc; d.reverse == Reindex(d, ts) && InRange(d, ts)
  {
    var r2 := ReadSections(r.(rest := r.rest[1..]), r.rest[0].value);
    ReindexSame(r2.desc, ReadRest(r, n, ts).desc, ts);
  }

  lemma {:induction false} TagsAreRead(p: seq<Token>, n: nat)
    requires EntriesNext(p, n)
    ensures forall t :: t in TagsRead(p, n) <==> t in EntriesIn(p, n)
  {
    if n > 0 {
      TagsAreRead(p[4..], n - 1);
    }
  }
}
