/**
 What readFromParcel of camera/VendorTagDescriptor.cpp makes of any parcel, not only of one that
 writeToParcel wrote: when its section numbers lead outside the section list.
 */
module VendorTagParcels {
  import opened Arithmetic
  import opened StringOrder
  import opened VendorTags
  import opened VendorTagWire

  // ----- The tags -----

  /** The section numbers are those of the tags read, none of them above the largest one met. */
  ghost predicate Numbered(d: Descriptor, ts: seq<Tag>, most: nat) {
    && (forall t :: t in d.sectionOf <==> t in ts)
    && (forall t :: t in d.sectionOf ==> d.sectionOf[t] <= most)
  }

  lemma {:induction false} TagsNumbered(r: Reader, n: nat, done: seq<Tag>)
    requires Numbered(r.desc, done, r.most) && r.status == OK && ReadTags(r, n).status == OK
    ensures Numbered(ReadTags(r, n).desc, done + TagsRead(r.rest, n), ReadTags(r, n).most)
    decreases n
  {
    if n == 0 {
      assert done + [] == done;
    } else {
      var r1, p := ReadTag(r), r.rest;
      TagsNumbered(r1, n - 1, done + [p[0].value]);
      assert done + TagsRead(p, n) == (done + [p[0].value]) + TagsRead(p[4..], n - 1);
    }
  }

  lemma {:induction false} TagsLeaveSections(r: Reader, n: nat)
    requires r.status == OK
    ensures ReadTags(r, n).desc.sections == r.desc.sections
    ensures ReadTags(r, n).status != OutOfRange && ReadTags(r, n).status != Fatal
    decreases n
  {
    if n > 0 {
      var r1 := ReadTag(r);
      if r1.status == OK {
        TagsLeaveSections(r1, n - 1);
      } else {
        assert ReadTags(r1, n - 1) == r1;
      }
    }
  }

  // ----- The sections -----

  /** `n` names, none of them empty, are at the front. */
  predicate NamesOk(p: seq<Token>, n: nat) {
    n <= |p| && forall i :: 0 <= i < n ==> p[i].S? && p[i].text != []
  }

  /** The different names among the first `n` items. */
  function Names(p: seq<Token>, n: nat): set<string> {
    if n == 0 || p == [] then {}
    else (if p[0].S? then {p[0].text} else {}) + Names(p[1..], n - 1)
  }

  lemma {:induction false} AddCounts(ss: seq<string>, s: string)
    requires Ascending(ss)
    ensures |AddSection(ss, s)| == |ss| + if s in ss then 0 else 1
  {
    if ss != [] && ss[0] != s {
      AscendingTail(ss);
      if Less(s, ss[0]) {
        if s in ss {
          var k :| 0 <= k < |ss| && ss[k] == s;
          LessTransitive(s, ss[0], ss[k]);
          LessIrreflexive(s);
        }
      } else {
        AddCounts(ss[1..], s);
        assert s in ss <==> s in ss[1..];
      }
    }
  }

  function Elements(ss: seq<string>): set<string> {
    set s | s in ss
  }

  /** The list counts every name once, and its elements are the names added. */
  lemma AddElements(ss: seq<string>, s: string)
    requires Ascending(ss) && |ss| == |Elements(ss)|
    ensures Ascending(AddSection(ss, s)) && Elements(AddSection(ss, s)) == Elements(ss) + {s}
    ensures |AddSection(ss, s)| == |Elements(AddSection(ss, s))|
  {
    AddAscending(ss, s);
    AddCounts(ss, s);
    forall x ensures x in Elements(AddSection(ss, s)) <==> x in Elements(ss) + {s} {
      AddMembers(ss, s, x);
    }
  }

  lemma FirstName(p: seq<Token>, n: nat)
    requires n > 0 && p != [] && p[0].S? && p[0].text != []
    ensures NamesOk(p, n) <==> NamesOk(p[1..], n - 1)
  {
    forall i | 0 < i < |p| ensures p[i] == p[1..][i - 1] {
    }
  }

  /** One name more on the list. */
  lemma NextSection(r: Reader, n: nat)
    requires n > 0 && Ascending(r.desc.sections) && |r.desc.sections| == |Elements(r.desc.sections)|
    requires r.status == OK && ReadSection(r).status == OK
    ensures var r1, ss := ReadSection(r), ReadSection(r).desc.sections;
            && Ascending(ss) && |ss| == |Elements(ss)| && r1.desc.sectionOf == r.desc.sectionOf
            && (NamesOk(r.rest, n) <==> NamesOk(r1.rest, n - 1))
            && Elements(ss) + Names(r1.rest, n - 1) == Elements(r.desc.sections) + Names(r.rest, n)
  {
    AddElements(r.desc.sections, r.rest[0].text);
    FirstName(r.rest, n);
  }

  /** The loop over the sections succeeds exactly if there are enough names; what it lists are the
      different ones.  It does not touch the tags. */
  lemma {:induction false} SectionsExactly(r: Reader, n: nat)
    requires r.status == OK && Ascending(r.desc.sections) && |r.desc.sections| == |Elements(r.desc.sections)|
    ensures var r2 := ReadSections(r, n);
            && (if NamesOk(r.rest, n) then r2.status == OK else r2.status == NotEnoughData)
            && r2.desc.sectionOf == r.desc.sectionOf
            && (r2.status == OK ==> |r2.desc.sections| == |Elements(r.desc.sections) + Names(r.rest, n)|)
    decreases n
  {
    if n == 0 {
      assert Elements(r.desc.sections) + {} == Elements(r.desc.sections);
    } else {
      var r1 := ReadSection(r);
      assert ReadSections(r, n) == ReadSections(r1, n - 1);
      if r1.status == OK {
        NextSection(r, n);
        SectionsExactly(r1, n - 1);
      } else {
        assert ReadSections(r1, n - 1) == r1;
      }
    }
  }

  // ----- Main results -----

  /** What readFromParcel has after the loop over the tags of a parcel. */
  function AfterTags(p: seq<Token>): Reader
    requires p != [] && p[0].I?
  {
    ReadTags(Reader(OK, p[1..], NONE.(tagCount := p[0].value), 0), p[0].value)
  }

  /** The tags of the parcel pass, and so does the number of sections behind them. */
  predicate CountPasses(p: seq<Token>) {
    && p != [] && p[0].I? && 0 < p[0].value < BOUNDARY
    && var r := AfterTags(p);
       r.status == OK && r.rest != [] && r.rest[0].I? && Needed(r.most) <= r.rest[0].value
  }

  /** Enough names follow, but some tag's section number, as given last, is not below the number of
      different names. */
  predicate LeadsOut(p: seq<Token>) {
    CountPasses(p)
    && var r := AfterTags(p);
       var count, names := r.rest[0].value, r.rest[1..];
       count > 0 && NamesOk(names, count)
       && exists t :: t in r.desc.sectionOf && r.desc.sectionOf[t] >= |Names(names, count)|
  }

  lemma RestLeadsOut(r: Reader, n: nat, ts: seq<Tag>)
    requires r.status == OK && Numbered(r.desc, ts, r.most) && r.desc.sections == [] && n > 0
    requires r.rest != [] && r.rest[0].I? && r.rest[0].value >= Needed(r.most)
    ensures ReadRest(r, n, ts).status == Fatal <==> r.rest[0].value == 0
    ensures var count, names := r.rest[0].value, r.rest[1..];
            ReadRest(r, n, ts).status == OutOfRange
            <==> count > 0 && NamesOk(names, count)
                 && exists t :: t in r.desc.sectionOf && r.desc.sectionOf[t] >= |Names(names, count)|
  {
    var r1, count := r.(rest := r.rest[1..]), r.rest[0].value;
    assert Elements([]) == {};
    SectionsExactly(r1, count);
    var r2 := ReadSections(r1, count);
    if r2.status == OK {
      assert {} + Names(r1.rest, count) == Names(r1.rest, count);
      RangeExactly(r2.desc, ts);
    }
  }

  lemma RangeExactly(d: Descriptor, ts: seq<Tag>)
    requires forall t :: t in d.sectionOf <==> t in ts
    ensures InRange(d, ts) <==> forall t :: t in d.sectionOf ==> d.sectionOf[t] < |d.sections|
  {
    if InRange(d, ts) {
      forall t | t in d.sectionOf ensures d.sectionOf[t] < |d.sections| {
        var i :| 0 <= i < |ts| && ts[i] == t;
        assert GetSectionName(d, ts[i]).Some?;
      }
    }
  }

  /** Whatever the parcel: reading it leads outside the section list exactly under that condition,
      and ends the process exactly if the number of sections passes and is zero. */
  lemma LeavesRangeExactly(p: seq<Token>)
    ensures Read(p).status == OutOfRange <==> LeadsOut(p)
    ensures Read(p).status == Fatal <==> CountPasses(p) && AfterTags(p).rest[0].value == 0
  {
    if p != [] && p[0].I? && p[0].value < BOUNDARY {
      var n, r0 := p[0].value, Reader(OK, p[1..], NONE.(tagCount := p[0].value), 0);
      TagsLeaveSections(r0, n);
      var r := AfterTags(p);
      if CountPasses(p) {
        TagsNumbered(r0, n, []);
        assert [] + TagsRead(p[1..], n) == TagsRead(p[1..], n);
        RestLeadsOut(r, n, TagsRead(p[1..], n));
      }
    }
  }

  /** `n` different items are at the front. */
  predicate DistinctFront(p: seq<Token>, n: nat) {
    forall i, j :: 0 <= i < j < n && j < |p| ==> p[i] != p[j]
  }

  lemma {:induction false} NameAmong(p: seq<Token>, n: nat, s: string)
    ensures s in Names(p, n) ==> exists i :: 0 <= i < n && i < |p| && p[i] == S(s)
  {
    if s in Names(p, n) && p[0] != S(s) {
      NameAmong(p[1..], n - 1, s);
      var i :| 0 <= i < n - 1 && i < |p[1..]| && p[1..][i] == S(s);
      assert p[i + 1] == S(s);
    }
  }

  lemma {:induction false} DistinctCounts(p: seq<Token>, n: nat)
    requires NamesOk(p, n) && DistinctFront(p, n)
    ensures |Names(p, n)| == n
  {
    if n > 0 {
      FirstName(p, n);
      DistinctCounts(p[1..], n - 1);
      NameAmong(p[1..], n - 1, p[0].text);
      forall i | 0 <= i < n - 1 ensures p[1..][i] != S(p[0].text) {
        assert p[i + 1] != p[0];
      }
    }
  }

  /** No section number is the largest 32-bit one, and no section name comes twice. */
  predicate SectionsInOrder(p: seq<Token>)
    requires p != [] && p[0].I?
  {
    var r := AfterTags(p);
    r.most + 1 < WORD
    && (r.rest != [] && r.rest[0].I? ==> DistinctFront(r.rest[1..], r.rest[0].value))
  }

  /** In such a parcel no number leads outside. */
  lemma ReadStaysInRange(p: seq<Token>)
    requires p != [] && p[0].I? ==> SectionsInOrder(p)
    ensures Read(p).status != OutOfRange && Read(p).status != Fatal
  {
    LeavesRangeExactly(p);
    if CountPasses(p) {
      var r, r0 := AfterTags(p), Reader(OK, p[1..], NONE.(tagCount := p[0].value), 0);
      TagsNumbered(r0, p[0].value, []);
      if NamesOk(r.rest[1..], r.rest[0].value) {
        DistinctCounts(r.rest[1..], r.rest[0].value);
      }
    }
  }

  /** A parcel with one tag and the given section number and names. */
  function OneTag(section: nat, ss: seq<Token>): seq<Token> {
    [I(1), I(BOUNDARY), I(0), S("name"), I(section), I(|ss|)] + ss
  }

  /** The largest 32-bit number wraps past the check; a name that comes twice is kept once. */
  lemma OutOfRangeExample()
    ensures Read(OneTag(WORD - 1, [S("section")])).status == OutOfRange
    ensures Read(OneTag(1, [S("section"), S("section")])).status == OutOfRange
  {
    OneTagRead(WORD - 1, [S("section")]);
    OneTagRead(1, [S("section"), S("section")]);
  }

  /** The largest 32-bit number with no section at all ends the process. */
  lemma FatalExample()
    ensures Read(OneTag(WORD - 1, [])).status == Fatal
  {
    var p := OneTag(WORD - 1, []);
    OneTagTags(WORD - 1, []);
    LeavesRangeExactly(p);
  }

  lemma OneTagRead(section: nat, ss: seq<Token>)
    requires ss == [S("section")] || ss == [S("section"), S("section")]
    requires section >= 1 && Needed(section) <= |ss|
    ensures Read(OneTag(section, ss)).status == OutOfRange
  {
    OneTagTags(section, ss);
    SameSections(AfterTags(OneTag(section, ss)).(rest := ss));
    assert ([I(|ss|)] + ss)[1..] == ss;
  }

  /** The tag of such a parcel passes. */
  lemma OneTagTags(section: nat, ss: seq<Token>)
    ensures var p := OneTag(section, ss);
            && p[0] == I(1) && AfterTags(p).status == OK && AfterTags(p).most == section
            && AfterTags(p).rest == [I(|ss|)] + ss && AfterTags(p).desc.sections == []
            && AfterTags(p).desc.sectionOf == map[BOUNDARY := section]
            && TagsRead(p[1..], 1) == [BOUNDARY]
  {
    var p := OneTag(section, ss);
    var r0 := Reader(OK, p[1..], NONE.(tagCount := 1), 0);
    var r := ReadTag(r0);
    assert p[1..][4..] == [I(|ss|)] + ss;
    assert ReadTags(r0, 1) == ReadTags(r, 0) == r;
    assert TagsRead(p[1..], 1) == [BOUNDARY] + TagsRead(p[1..][4..], 0) == [BOUNDARY];
  }

  lemma SameSections(r: Reader)
    requires r.status == OK && r.desc.sections == []
    requires r.rest == [S("section")] || r.rest == [S("section"), S("section")]
    ensures var r2 := ReadSections(r, |r.rest|);
            r2.status == OK && r2.desc == r.desc.(sections := ["section"])
  {
    var r1 := ReadSection(r);
    assert r1.desc.sections == ["section"];
    assert |r.rest| == 1 ==> ReadSections(r1, 0) == r1;
    if |r.rest| == 2 {
      assert r1.rest == [S("section")];
      var r2 := ReadSection(r1);
      assert ReadSections(r1, 1) == ReadSections(r2, 0) == r2;
    }
  }
}
